/** Vertex and face values shared by the exporter and the rollout reader. */
module Mesh {

  /** A vertex position: coordinates 0, 1 and 2. */
  type Vertex = (real, real, real)

  /** A triangle: three 0-based vertex indices. */
  type Face = (nat, nat, nat)

  /**
   * A face array as stored in a rollout: one face list shared by all frames
   * (a 2-D array) or one face list per frame (a 3-D array).
   */
  datatype FaceArray = StaticFaces(faces: seq<Face>) | PerFrameFaces(frames: seq<seq<Face>>)
}
