/**
 * Export of an animated mesh as one Wavefront OBJ text per frame
 * (`export_animated_mesh_to_obj_sequence` in utils/show.py).
 *
 * Frame `i` goes to the file `<basename>_<i, zero-padded to 4>.obj`; its text
 * is one `v` line per vertex, in vertex order, then one `f` line per face with
 * the face's three 0-based indices turned into OBJ's 1-based ones. A line is
 * kept as a value (`ObjLine`); how coordinates are printed is not modelled.
 */
module ObjExport {
  import opened Wrappers
  import opened Numerals
  import opened Mesh

  /** One line of an OBJ text: `v x y z` or `f i j k`. */
  datatype ObjLine = VertexLine(x: real, y: real, z: real) | FaceLine(i: nat, j: nat, k: nat)

  /** One exported frame: its file name (relative to the output directory) and its lines. */
  datatype ObjFile = ObjFile(name: string, lines: seq<ObjLine>)

  const Separator: string := "_"
  const Extension: string := ".obj"
  /** Minimum width of the frame number in a file name (format spec `04`). */
  const IndexWidth: nat := 4

  /** The `v` line of a vertex: its three coordinates in order. */
  function VertexRecord(v: Vertex): (l: ObjLine)
    ensures l.VertexLine? && (l.x, l.y, l.z) == v
  {
    VertexLine(v.0, v.1, v.2)
  }

  /** The `f` line of a face: its indices, each plus one, in the same order. */
  function FaceRecord(f: Face): (l: ObjLine)
    ensures l.FaceLine? && l.i >= 1 && l.j >= 1 && l.k >= 1
  {
    FaceLine(f.0 + 1, f.1 + 1, f.2 + 1)
  }

  /** The face an OBJ face line denotes, back in 0-based indices. */
  function FaceOf(l: ObjLine): Face
    requires l.FaceLine? && l.i >= 1 && l.j >= 1 && l.k >= 1
  {
    (l.i - 1, l.j - 1, l.k - 1)
  }

  /** Face lines and faces correspond one to one: writing then reading a face gives it back, and conversely. */
  lemma FaceRecordRoundTrip(f: Face, l: ObjLine)
    ensures FaceOf(FaceRecord(f)) == f
    ensures l.FaceLine? && l.i >= 1 && l.j >= 1 && l.k >= 1 ==> FaceRecord(FaceOf(l)) == l
  {
  }

  /** A face whose indices are valid for `n` vertices becomes a line whose 1-based indices lie in 1..n. */
  lemma FaceRecordInRange(f: Face, n: nat)
    requires f.0 < n && f.1 < n && f.2 < n
    ensures 1 <= FaceRecord(f).i <= n && 1 <= FaceRecord(f).j <= n && 1 <= FaceRecord(f).k <= n
  {
  }

  /** The file name of frame `i` (`f"{basename}_{i:04}.obj"`). */
  function FrameFileName(basename: string, i: nat): (name: string)
    ensures |name| >= |basename| + 9
    ensures name[..|basename| + 1] == basename + Separator
    ensures name[|name| - 4..] == Extension
    ensures AllDigits(name[|basename| + 1..|name| - 4])
  {
    var prefix := basename + Separator;
    var number := ZeroPadded(i, IndexWidth);
    var name := prefix + number + Extension;
    assert |prefix| == |basename| + 1 && |Extension| == 4 && |number| >= 4;
    assert name[..|prefix|] == prefix;
    assert name[|name| - 4..] == Extension;
    assert name[|prefix|..|name| - 4] == number;
    name
  }

  /** The frame number a file name of this export stands for, if it is one. */
  function FrameIndexOf(basename: string, name: string): Option<nat> {
    var prefix := basename + Separator;
    if |name| < |prefix| + |Extension| + 1 then None
    else if name[..|prefix|] != prefix || name[|name| - |Extension|..] != Extension then None
    else
      var number := name[|prefix|..|name| - |Extension|];
      if AllDigits(number) then Some(ParseDecimal(number)) else None
  }

  /** A frame's file name gives back its frame number. */
  lemma FrameIndexOfFileName(basename: string, i: nat)
    ensures FrameIndexOf(basename, FrameFileName(basename, i)) == Some(i)
  {
    var prefix := basename + Separator;
    var number := ZeroPadded(i, IndexWidth);
    var name := FrameFileName(basename, i);
    assert name == prefix + number + Extension;
    PaddedToFour(i);
    assert name[..|prefix|] == prefix;
    assert name[|name| - |Extension|..] == Extension;
    assert name[|prefix|..|name| - |Extension|] == number;
    ZeroPaddedRoundTrip(i, IndexWidth);
  }

  /** No two frames share a file name, so no frame overwrites another. */
  lemma FrameFileNamesDistinct(basename: string, i: nat, j: nat)
    requires i != j
    ensures FrameFileName(basename, i) != FrameFileName(basename, j)
  {
    FrameIndexOfFileName(basename, i);
    FrameIndexOfFileName(basename, j);
  }

  /** The frame number takes four characters up to frame 9999 and more from frame 10000 on. */
  lemma FrameFileNameLength(basename: string, i: nat)
    ensures |FrameFileName(basename, i)| >= |basename| + 9
    ensures |FrameFileName(basename, i)| == |basename| + 9 <==> i < 10000
  {
    PaddedToFour(i);
  }

  /**
   * `file` is the export of one frame: named `name`, one `v` line per vertex in
   * vertex order, then one `f` line per face in face order.
   */
  predicate IsFrameFile(file: ObjFile, name: string, verts: seq<Vertex>, faces: seq<Face>) {
    && file.name == name
    && |file.lines| == |verts| + |faces|
    && (forall q :: 0 <= q < |verts| ==> file.lines[q] == VertexRecord(verts[q]))
    && (forall q :: 0 <= q < |faces| ==> file.lines[|verts| + q] == FaceRecord(faces[q]))
  }

  /** The face lines of a frame's text depend only on the faces: they are the same in every frame. */
  lemma FaceSectionShared(f1: ObjFile, n1: string, v1: seq<Vertex>,
                          f2: ObjFile, n2: string, v2: seq<Vertex>, faces: seq<Face>)
    requires IsFrameFile(f1, n1, v1, faces) && IsFrameFile(f2, n2, v2, faces)
    ensures f1.lines[|v1|..] == f2.lines[|v2|..]
  {
    forall q | 0 <= q < |faces| ensures f1.lines[|v1|..][q] == f2.lines[|v2|..][q] {
      assert f1.lines[|v1| + q] == FaceRecord(faces[q]) == f2.lines[|v2| + q];
    }
  }

  /** The text of a frame is determined by its name, vertices and faces: the export is deterministic. */
  lemma FrameFileUnique(f1: ObjFile, f2: ObjFile, name: string, verts: seq<Vertex>, faces: seq<Face>)
    requires IsFrameFile(f1, name, verts, faces) && IsFrameFile(f2, name, verts, faces)
    ensures f1 == f2
  {
    forall q | 0 <= q < |f1.lines| ensures f1.lines[q] == f2.lines[q] {
      if q >= |verts| {
        var r := q - |verts|;
        assert f1.lines[|verts| + r] == FaceRecord(faces[r]) == f2.lines[|verts| + r];
      }
    }
  }

  /**
   * The text of one frame, written line by line as the inner loops of
   * `export_animated_mesh_to_obj_sequence` do: the `v` lines, then the `f` lines.
   */
  method FrameLines(verts: seq<Vertex>, faces: seq<Face>) returns (lines: seq<ObjLine>)
    ensures IsFrameFile(ObjFile([], lines), [], verts, faces)
  {
    lines := [];
    for j := 0 to |verts|
      invariant |lines| == j
      invariant forall q :: 0 <= q < j ==> lines[q] == VertexRecord(verts[q])
    {
      lines := lines + [VertexRecord(verts[j])];
    }
    for k := 0 to |faces|
      invariant |lines| == |verts| + k
      invariant forall q :: 0 <= q < |verts| ==> lines[q] == VertexRecord(verts[q])
      invariant forall q :: 0 <= q < k ==> lines[|verts| + q] == FaceRecord(faces[q])
    {
      lines := lines + [FaceRecord(faces[k])];
    }
  }

  /**
   * `export_animated_mesh_to_obj_sequence`: one OBJ text per frame, in frame
   * order, each named after its frame and built from the frame's vertices and
   * the shared faces.
   */
  method ExportObjSequence(frames: seq<seq<Vertex>>, faces: seq<Face>, basename: string)
    returns (files: seq<ObjFile>)
    ensures |files| == |frames|
    ensures forall i :: 0 <= i < |frames| ==> IsFrameFile(files[i], FrameFileName(basename, i), frames[i], faces)
  {
    files := [];
    for i := 0 to |frames|
      invariant |files| == i
      invariant forall p :: 0 <= p < i ==> IsFrameFile(files[p], FrameFileName(basename, p), frames[p], faces)
    {
      var lines := FrameLines(frames[i], faces);
      files := files + [ObjFile(FrameFileName(basename, i), lines)];
    }
  }

  /** Two frames of a three-vertex, one-face mesh give two texts of three `v` lines and one `f` line. */
  method ExportExample() {
    var v := (0.0, 0.0, 0.0);
    var faces: seq<Face> := [(0, 1, 2)];
    var files := ExportObjSequence([[v, v, v], [v, v, v]], faces, "frame");
    assert |files| == 2;
    assert |files[0].lines| == 4 && |files[1].lines| == 4;
    assert FaceRecord(faces[0]) == FaceLine(1, 2, 3);
    assert files[0].lines[3] == FaceLine(1, 2, 3) && files[1].lines[3] == FaceLine(1, 2, 3);
    assert files[0].name == "frame_" + ZeroPadded(0, 4) + ".obj";
    FrameFileNamesDistinct("frame", 0, 1);
    assert files[0].name != files[1].name;
  }
}
