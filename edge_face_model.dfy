/**
 * The loaded-model cache of the edge device (raspberry_pi_system/src/model.py):
 * `FaceModel` keeps the Keras model in memory together with the path it came
 * from, reloads only when asked for a different path, and refuses to predict
 * while nothing is loaded.
 */
module EdgeFaceModel {
  import opened Wrappers
  import opened Text
  import opened EdgeFiles

  /**
   * A network held in memory: the path it was read from, the file that was
   * at that path when it was read, and whether `compile` ran on it.
   */
  datatype Network = Network(source: string, file: Artifact, compiled: bool)

  /** What the Keras loader does with a file (an oracle: the file format is not modelled). */
  datatype LoadOutcome =
    | ReadFails       // `load_model` raises
    | CompileFails    // `load_model` returns a network, `compile` raises
    | Loads           // both succeed

  datatype ModelError = ModelLoadError

  /** The answer of `predict`: `str(predicted_class)` is reported as the student id. */
  datatype Prediction = Prediction(studentId: string)

  class FaceModel {
    var model: Option<Network>
    var modelPath: Option<string>

    /**
     * A recorded path always comes with a network in memory, and a compiled
     * network is the one read from the recorded path.
     */
    ghost predicate Valid()
      reads this
    {
      && (modelPath.Some? ==> model.Some?)
      && (model.Some? && model.value.compiled ==> modelPath == Some(model.value.source))
    }

    constructor ()
      ensures Valid()
      ensures model == None && modelPath == None
    {
      model := None;
      modelPath := None;
    }

    /**
     * `load_model(path)` as written; `file` is what is on disk at `path`.
     * `Ok(false)` and no reload when `path` is the recorded one, whatever the
     * file there now is; otherwise read, compile, record the path and return
     * `Ok(true)`. A failure raises `ModelLoadError` and leaves `modelPath` as
     * it was; when only `compile` fails the freshly read network has already
     * replaced `model`.
     */
    method LoadModelAsWritten(path: string, file: Artifact, outcome: LoadOutcome)
        returns (r: Result<bool, ModelError>)
      requires Valid()
      modifies this
      ensures Valid()
      ensures old(modelPath) == Some(path) ==> r == Ok(false) && unchanged(this)
      ensures old(modelPath) != Some(path) ==>
        match outcome
        case ReadFails => r.Err? && unchanged(this)
        case CompileFails =>
          r.Err? && model == Some(Network(path, file, false)) && modelPath == old(modelPath)
        case Loads =>
          r == Ok(true) && model == Some(Network(path, file, true)) && modelPath == Some(path)
    {
      if modelPath != Some(path) {
        r := Read(path, file, outcome);
        return;
      }
      return Ok(false);
    }

    /**
     * `load_model(path)` as its cache is meant to work: the read is skipped
     * only when the network in memory was compiled from the very file now at
     * `path`. Once it returns normally, that file's network is in memory.
     */
    method LoadModel(path: string, file: Artifact, outcome: LoadOutcome) returns (r: Result<bool, ModelError>)
      requires Valid()
      modifies this
      ensures Valid()
      ensures r.Ok? ==> model == Some(Network(path, file, true)) && modelPath == Some(path)
      ensures old(model) == Some(Network(path, file, true)) ==> r == Ok(false) && unchanged(this)
      ensures old(model) != Some(Network(path, file, true)) ==>
        match outcome
        case ReadFails => r.Err? && unchanged(this)
        case CompileFails =>
          r.Err? && model == Some(Network(path, file, false)) && modelPath == old(modelPath)
        case Loads =>
          r == Ok(true) && model == Some(Network(path, file, true)) && modelPath == Some(path)
    {
      if model != Some(Network(path, file, true)) {
        r := Read(path, file, outcome);
        return;
      }
      return Ok(false);
    }

    /** The body of the `if` in `load_model`: read, compile, record. */
    method Read(path: string, file: Artifact, outcome: LoadOutcome) returns (r: Result<bool, ModelError>)
      requires Valid()
      modifies this
      ensures Valid()
      ensures match outcome
        case ReadFails => r.Err? && unchanged(this)
        case CompileFails =>
          r.Err? && model == Some(Network(path, file, false)) && modelPath == old(modelPath)
        case Loads =>
          r == Ok(true) && model == Some(Network(path, file, true)) && modelPath == Some(path)
    {
      match outcome
      case ReadFails =>
        return Err(ModelLoadError);
      case CompileFails =>
        model := Some(Network(path, file, false));
        return Err(ModelLoadError);
      case Loads =>
        model := Some(Network(path, file, true));
        modelPath := Some(path);
        return Ok(true);
    }

    /**
     * `predict(face_image)`: `None` while no network is loaded, `None` when
     * preprocessing gives `None`, and otherwise the class the network picks
     * (`inferred`, an oracle; `None` when inference raises), reported as text.
     */
    method Predict<Image>(preprocessed: Option<Image>, inferred: Option<nat>)
        returns (r: Option<Prediction>)
      ensures model.None? ==> r.None?
      ensures preprocessed.None? ==> r.None?
      ensures r.Some? <==> model.Some? && preprocessed.Some? && inferred.Some?
      ensures r.Some? ==> r.value.studentId == NatToDecimal(inferred.value)
    {
      if model.None? {
        return None;
      }
      if preprocessed.None? {
        return None;
      }
      if inferred.None? {
        return None;
      }
      return Some(Prediction(NatToDecimal(inferred.value)));
    }
  }

  /** Loading the same file twice in a row reads it once: the second call is a no-op. */
  method LoadTwice(m: FaceModel, path: string, file: Artifact, first: LoadOutcome, second: LoadOutcome)
      returns (r1: Result<bool, ModelError>, r2: Result<bool, ModelError>)
    requires m.Valid()
    modifies m
    ensures old(m.model) != Some(Network(path, file, true)) && first == Loads ==> r1 == Ok(true)
    ensures first == Loads || old(m.model) == Some(Network(path, file, true)) ==>
      r2 == Ok(false) && m.model == Some(Network(path, file, true)) && m.modelPath == Some(path)
  {
    r1 := m.LoadModel(path, file, first);
    r2 := m.LoadModel(path, file, second);
  }

  /**
   * As written, a new file under an already loaded path is never read: the
   * network of the earlier file stays in memory and the call reports `False`.
   */
  method NewFileUnderLoadedPath(m: FaceModel, path: string, earlier: Artifact, later: Artifact)
      returns (r1: Result<bool, ModelError>, r2: Result<bool, ModelError>)
    requires m.Valid() && m.modelPath != Some(path) && earlier != later
    modifies m
    ensures r1 == Ok(true) && r2 == Ok(false)
    ensures m.model == Some(Network(path, earlier, true)) && m.model != Some(Network(path, later, true))
  {
    r1 := m.LoadModelAsWritten(path, earlier, Loads);
    r2 := m.LoadModelAsWritten(path, later, Loads);
  }

  /** With the intended cache, the same two calls read the later file. */
  method NewFileUnderLoadedPathReloads(m: FaceModel, path: string, earlier: Artifact, later: Artifact)
      returns (r1: Result<bool, ModelError>, r2: Result<bool, ModelError>)
    requires m.Valid() && m.modelPath != Some(path) && earlier != later
    modifies m
    ensures r1 == Ok(true) && r2 == Ok(true)
    ensures m.model == Some(Network(path, later, true)) && m.modelPath == Some(path)
  {
    r1 := m.LoadModel(path, earlier, Loads);
    r2 := m.LoadModel(path, later, Loads);
  }
}
