/**
 * What `add_seq` (utils/show.py) reads from a loaded rollout before placing
 * the meshes: the cloth faces, whether there is an obstacle, and the obstacle's
 * positions and faces; a per-frame face array is reduced to its frame 0.
 *
 * The rollout is the dictionary the loader returns. Its `pred` and
 * `cloth_faces` entries are fields; `obstacle` and `obstacle_faces` may be
 * missing, which `None` stands for. Position buffers are left abstract (`P`).
 */
module Selection {
  import opened Wrappers
  import opened Mesh

  datatype Rollout<P> = Rollout(
    pred: P,
    clothFaces: FaceArray,
    obstacle: Option<P>,
    obstacleFaces: Option<FaceArray>)

  /** What `add_seq` goes on with: cloth positions and faces, and the obstacle if there is one. */
  datatype Scene<P> = Scene(
    clothPos: P,
    clothFaces: seq<Face>,
    obstacle: Option<ObstacleMesh<P>>)

  datatype ObstacleMesh<P> = ObstacleMesh(pos: P, faces: FaceArray)

  datatype SelectError =
    | MissingKey(key: string)     // a dictionary lookup raises KeyError
    | NoFrameZero                 // indexing frame 0 of an empty face array raises IndexError
    | FaceShapeMismatch           // cloth faces per frame, obstacle faces shared: `[0]` picks one face

  /** The faces of frame 0 of a per-frame face array. */
  function FrameZero(frames: seq<seq<Face>>): (r: Result<seq<Face>, SelectError>)
    ensures r.Ok? <==> |frames| > 0
    ensures r.Ok? ==> r.value == frames[0]
    ensures r.Err? ==> r.error == NoFrameZero
  {
    if |frames| == 0 then Err(NoFrameZero) else Ok(frames[0])
  }

  /**
   * Lines 77-90 of `add_seq`. The obstacle is present exactly when the
   * `obstacle_faces` key is; its positions are then looked up. Whether face
   * arrays are reduced to frame 0 is decided by the cloth face array alone,
   * and then the obstacle's is reduced too.
   */
  function SelectGeometry<P>(r: Rollout<P>): (res: Result<Scene<P>, SelectError>)
    ensures res.Ok? ==> res.value.clothPos == r.pred
    ensures res.Ok? ==> (res.value.obstacle.Some? <==> r.obstacleFaces.Some?)
    ensures res.Ok? && res.value.obstacle.Some? ==> Some(res.value.obstacle.value.pos) == r.obstacle
    ensures r.obstacleFaces.Some? && r.obstacle.None? ==> res == Err(MissingKey("obstacle"))
    ensures res.Ok? && r.clothFaces.StaticFaces? ==>
      res.value.clothFaces == r.clothFaces.faces
      && (res.value.obstacle.Some? ==> res.value.obstacle.value.faces == r.obstacleFaces.value)
    ensures res.Ok? && r.clothFaces.PerFrameFaces? ==>
      |r.clothFaces.frames| > 0 && res.value.clothFaces == r.clothFaces.frames[0]
      && (res.value.obstacle.Some? ==>
            r.obstacleFaces.value.PerFrameFaces? && |r.obstacleFaces.value.frames| > 0
            && res.value.obstacle.value.faces == StaticFaces(r.obstacleFaces.value.frames[0]))
    ensures res.Err? <==>
      || (r.obstacleFaces.Some? && r.obstacle.None?)
      || (r.clothFaces.PerFrameFaces? && |r.clothFaces.frames| == 0)
      || (r.clothFaces.PerFrameFaces? && r.obstacleFaces.Some?
          && !(r.obstacleFaces.value.PerFrameFaces? && |r.obstacleFaces.value.frames| > 0))
  {
    if r.obstacleFaces.Some? && r.obstacle.None? then Err(MissingKey("obstacle"))
    else
      var obstacle := if r.obstacleFaces.Some? then Some(ObstacleMesh(r.obstacle.value, r.obstacleFaces.value)) else None;
      match r.clothFaces
      case StaticFaces(faces) => Ok(Scene(r.pred, faces, obstacle))
      case PerFrameFaces(frames) =>
        match FrameZero(frames)
        case Err(e) => Err(e)
        case Ok(cloth0) =>
          match obstacle
          case None => Ok(Scene(r.pred, cloth0, None))
          case Some(mesh) =>
            match mesh.faces
            case StaticFaces(faces) => if |faces| == 0 then Err(NoFrameZero) else Err(FaceShapeMismatch)
            case PerFrameFaces(obstacleFrames) =>
              match FrameZero(obstacleFrames)
              case Err(e) => Err(e)
              case Ok(obstacle0) => Ok(Scene(r.pred, cloth0, Some(ObstacleMesh(mesh.pos, StaticFaces(obstacle0)))))
  }

  /** Obstacle positions stored without an `obstacle_faces` entry are ignored: only that key decides. */
  lemma ObstaclePositionsAloneIgnored<P>(r: Rollout<P>, stray: P)
    requires r.obstacleFaces.None?
    ensures SelectGeometry(r.(obstacle := Some(stray))) == SelectGeometry(r.(obstacle := None))
    ensures SelectGeometry(r).Ok? ==> SelectGeometry(r).value.obstacle.None?
  {
  }

  /** Only frame 0 of per-frame cloth faces is ever used: later frames' topology does not matter. */
  lemma LaterTopologyIgnored<P>(r: Rollout<P>, later: seq<seq<Face>>)
    requires r.clothFaces.PerFrameFaces? && |r.clothFaces.frames| > 0
    ensures SelectGeometry(r.(clothFaces := PerFrameFaces([r.clothFaces.frames[0]] + later)))
         == SelectGeometry(r.(clothFaces := PerFrameFaces([r.clothFaces.frames[0]])))
  {
  }
}
