/**
 * The model files of the edge device's disk, shared by the model manager,
 * which writes and copies them, and the face model, which reads them.
 */
module EdgeFiles {
  /**
   * A model file: where it was fetched from and whether the transfer
   * finished. Its contents are identified with its source URL.
   */
  datatype Artifact = Artifact(url: string, complete: bool)
}
