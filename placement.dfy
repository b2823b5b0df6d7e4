/**
 * Placement of the cloth and obstacle position buffers on a common floor
 * (`place_meshes` in utils/show.py).
 *
 * A position buffer is a frames x vertices x coordinates array of reals
 * (`array3<real>`); coordinate 1 is the up axis, coordinates 0 and 2 are the
 * two horizontal axes. The obstacle buffer may be absent (`null`, Python's
 * `None`). Both buffers are updated in place, as the numpy slice updates do.
 */
module Placement {
  import opened Wrappers

  /** The first horizontal axis, moved by `xShift`. */
  const XAxis: nat := 0
  /** The vertical axis, lowered by the floor offset. */
  const UpAxis: nat := 1
  /** The second horizontal axis, moved by `yShift`. */
  const ZAxis: nat := 2
  /** Without an obstacle the lowest point of cloth frame 0 is lifted to this height. */
  const ClothOnlyClearance: real := 2.0

  /** `m` is the smallest element of `s`. */
  predicate IsMinimum(m: real, s: seq<real>) {
    m in s && forall x :: x in s ==> m <= x
  }

  /** Python's built-in `min` of two numbers. */
  function Lesser(a: real, b: real): real {
    if a <= b then a else b
  }

  /** numpy's `min()` reduction over a non-empty collection. */
  function Min(s: seq<real>): (m: real)
    requires |s| > 0
    ensures IsMinimum(m, s)
  {
    if |s| == 1 then s[0]
    else
      var rest := Min(s[1..]);
      assert forall x :: x in s ==> x == s[0] || x in s[1..];
      if s[0] <= rest then s[0] else rest
  }

  /** Every element of `s` decreased by `c`. */
  function Lowered(s: seq<real>, c: real): (r: seq<real>)
  {
    seq(|s|, i requires 0 <= i < |s| => s[i] - c)
  }

  /** The up coordinates of the vertices of frame `f`, in vertex order. */
  function FrameUps(a: array3<real>, f: nat): seq<real>
    requires f < a.Length0 && UpAxis < a.Length2
    reads a
  {
    seq(a.Length1, j requires 0 <= j < a.Length1 reads a => a[f, j, UpAxis])
  }

  /** The up coordinates of every frame, one sequence per frame. */
  function UpColumns(a: array3<real>): (cols: seq<seq<real>>)
    requires UpAxis < a.Length2
    reads a
  {
    seq(a.Length0, i requires 0 <= i < a.Length0 reads a => FrameUps(a, i))
  }

  /** The sequences of `ss` one after another. */
  function Flatten(ss: seq<seq<real>>): seq<real> {
    if |ss| == 0 then [] else Flatten(ss[..|ss| - 1]) + ss[|ss| - 1]
  }

  /** Every up coordinate of every frame, frame after frame (`a[:, :, 1]`). */
  function AllUps(a: array3<real>): seq<real>
    requires UpAxis < a.Length2
    reads a
  {
    Flatten(UpColumns(a))
  }

  /** Every sequence of `ss` lowered by `c`. */
  function LoweredEach(ss: seq<seq<real>>, c: real): (r: seq<seq<real>>)
  {
    seq(|ss|, i requires 0 <= i < |ss| => Lowered(ss[i], c))
  }

  /**
   * The cloth values that enter the floor offset: the up coordinates of frame 0
   * only. A buffer with no frame has none (indexing frame 0 raises).
   */
  function ClothFloorUps(cloth: array3<real>): seq<real>
    requires UpAxis < cloth.Length2
    reads cloth
  {
    if cloth.Length0 == 0 then [] else FrameUps(cloth, 0)
  }

  /** The obstacle values that enter the floor offset: every up coordinate of every frame. */
  function ObstacleUps(obstacle: array3?<real>): Option<seq<real>>
    requires obstacle != null ==> UpAxis < obstacle.Length2
    reads obstacle
  {
    if obstacle == null then None else Some(AllUps(obstacle))
  }

  /**
   * The floor offset `min_z`. With an obstacle it is the smaller of the obstacle's
   * minimum up coordinate (all frames) and cloth frame 0's; without one it is cloth
   * frame 0's minimum less the clearance. `None` when a minimum is taken over no
   * value, where numpy raises.
   */
  function FloorOffset(cloth0: seq<real>, obstacleUps: Option<seq<real>>): (r: Option<real>)
    ensures r.Some? <==> |cloth0| > 0 && (obstacleUps.Some? ==> |obstacleUps.value| > 0)
    ensures r.Some? && obstacleUps.Some? ==> IsMinimum(r.value, obstacleUps.value + cloth0)
    ensures r.Some? && obstacleUps.None? ==> IsMinimum(r.value + ClothOnlyClearance, cloth0)
  {
    match obstacleUps
    case None =>
      if |cloth0| == 0 then None else Some(Min(cloth0) - ClothOnlyClearance)
    case Some(obs) =>
      if |obs| == 0 || |cloth0| == 0 then None
      else
        var m := Lesser(Min(obs), Min(cloth0));
        assert forall x :: x in obs + cloth0 ==> x in obs || x in cloth0;
        Some(m)
  }

  /** Joining sequences that all have `width` elements gives something exactly when there is one with something in it. */
  lemma {:induction false} FlattenNonEmpty(ss: seq<seq<real>>, width: nat)
    requires forall i :: 0 <= i < |ss| ==> |ss[i]| == width
    ensures |Flatten(ss)| > 0 <==> |ss| > 0 && width > 0
  {
    if |ss| > 0 {
      FlattenNonEmpty(ss[..|ss| - 1], width);
    }
  }

  /**
   * The floor offset `place_meshes` computes from the current buffers. It exists
   * exactly when cloth frame 0 and (if there is one) the obstacle have a vertex;
   * otherwise indexing frame 0 or a minimum over nothing raises.
   */
  function PlacementFloor(cloth: array3<real>, obstacle: array3?<real>): (r: Option<real>)
    requires UpAxis < cloth.Length2
    requires obstacle != null ==> UpAxis < obstacle.Length2
    reads cloth, obstacle
    ensures r.Some? <==>
      cloth.Length0 > 0 && cloth.Length1 > 0 && (obstacle != null ==> obstacle.Length0 > 0 && obstacle.Length1 > 0)
    ensures r.Some? && obstacle == null ==> IsMinimum(r.value + ClothOnlyClearance, FrameUps(cloth, 0))
    ensures r.Some? && obstacle != null ==> IsMinimum(r.value, AllUps(obstacle) + FrameUps(cloth, 0))
  {
    assert obstacle != null ==> (|AllUps(obstacle)| > 0 <==> obstacle.Length0 > 0 && obstacle.Length1 > 0) by {
      if obstacle != null { FlattenNonEmpty(UpColumns(obstacle), obstacle.Length1); }
    }
    FloorOffset(ClothFloorUps(cloth), ObstacleUps(obstacle))
  }

  /**
   * How far coordinate `axis` of every vertex moves once the floor offset is
   * known: only the up axis depends on the offset, and it goes down by it.
   */
  function Displacement(axis: nat, floor: real, xShift: real, yShift: real): (d: real)
    ensures axis == UpAxis ==> d + floor == 0.0
    ensures axis == XAxis ==> d == xShift
    ensures axis == ZAxis ==> d == yShift
    ensures axis > ZAxis ==> d == 0.0
  {
    if axis == XAxis then xShift
    else if axis == UpAxis then -floor
    else if axis == ZAxis then yShift
    else 0.0
  }

  /** Lowering a collection by `c` lowers its minimum by `c`. */
  lemma MinimumLowered(m: real, s: seq<real>, c: real)
    requires IsMinimum(m, s)
    ensures IsMinimum(m - c, Lowered(s, c))
  {
    var k :| 0 <= k < |s| && s[k] == m;
    assert Lowered(s, c)[k] == m - c;
    forall x | x in Lowered(s, c) ensures m - c <= x {
      var i :| 0 <= i < |s| && Lowered(s, c)[i] == x;
      assert s[i] in s;
    }
  }

  /** After placement without an obstacle, the lowest point of the lowered frame 0 sits at the clearance height. */
  lemma {:induction false} ClothOnlyFloorIsClearance(cloth0: seq<real>)
    requires |cloth0| > 0
    ensures FloorOffset(cloth0, None).Some?
    ensures IsMinimum(ClothOnlyClearance, Lowered(cloth0, FloorOffset(cloth0, None).value))
  {
    var off := FloorOffset(cloth0, None).value;
    MinimumLowered(off + ClothOnlyClearance, cloth0, off);
  }

  /** After placement with an obstacle, the lowest of the considered points sits exactly at 0. */
  lemma {:induction false} ObstacleFloorIsZero(cloth0: seq<real>, obs: seq<real>)
    requires |cloth0| > 0 && |obs| > 0
    ensures FloorOffset(cloth0, Some(obs)).Some?
    ensures IsMinimum(0.0, Lowered(obs, FloorOffset(cloth0, Some(obs)).value)
                            + Lowered(cloth0, FloorOffset(cloth0, Some(obs)).value))
  {
    var off := FloorOffset(cloth0, Some(obs)).value;
    MinimumLowered(off, obs + cloth0, off);
    assert Lowered(obs + cloth0, off) == Lowered(obs, off) + Lowered(cloth0, off);
  }

  /** Lowering frame by frame and then concatenating is lowering the concatenation. */
  lemma {:induction false} FlattenLowered(ss: seq<seq<real>>, c: real)
    ensures Flatten(LoweredEach(ss, c)) == Lowered(Flatten(ss), c)
  {
    if |ss| > 0 {
      var init := ss[..|ss| - 1];
      assert LoweredEach(ss, c)[..|ss| - 1] == LoweredEach(init, c);
      FlattenLowered(init, c);
      assert Lowered(Flatten(init) + ss[|ss| - 1], c) == Lowered(Flatten(init), c) + Lowered(ss[|ss| - 1], c);
    }
  }

  /** When every up coordinate of `a` is the one in `cols` lowered by `c`, the up columns of `a` are `cols` lowered by `c`. */
  lemma UpColumnsLowered(a: array3<real>, cols: seq<seq<real>>, c: real)
    requires UpAxis < a.Length2 && |cols| == a.Length0
    requires forall i :: 0 <= i < |cols| ==> |cols[i]| == a.Length1
    requires forall i, j :: 0 <= i < a.Length0 && 0 <= j < a.Length1 ==> a[i, j, UpAxis] == cols[i][j] - c
    ensures UpColumns(a) == LoweredEach(cols, c)
  {
    forall i | 0 <= i < a.Length0
      ensures UpColumns(a)[i] == LoweredEach(cols, c)[i]
    {
      assert FrameUps(a, i) == Lowered(cols[i], c);
    }
  }

  /** Moves every vertex of every frame of `a` by the displacement of its axis. */
  method Translate(a: array3<real>, floor: real, xShift: real, yShift: real)
    requires ZAxis < a.Length2
    modifies a
    ensures forall i, j, k :: 0 <= i < a.Length0 && 0 <= j < a.Length1 && 0 <= k < a.Length2 ==>
      a[i, j, k] == old(a[i, j, k]) + Displacement(k, floor, xShift, yShift)
  {
    forall i, j | 0 <= i < a.Length0 && 0 <= j < a.Length1 {
      a[i, j, UpAxis] := a[i, j, UpAxis] - floor;
    }
    forall i, j | 0 <= i < a.Length0 && 0 <= j < a.Length1 {
      a[i, j, XAxis] := a[i, j, XAxis] + xShift;
    }
    forall i, j | 0 <= i < a.Length0 && 0 <= j < a.Length1 {
      a[i, j, ZAxis] := a[i, j, ZAxis] + yShift;
    }
  }

  /**
   * `place_meshes`: lowers both buffers by the floor offset and shifts them
   * horizontally, in place. `None` models the exception raised when a minimum
   * is taken over no value; the buffers are then untouched. Otherwise the same
   * two buffers are returned (an absent obstacle stays absent).
   */
  method PlaceMeshes(cloth: array3<real>, obstacle: array3?<real>, xShift: real, yShift: real)
    returns (placed: Option<(array3<real>, array3?<real>)>)
    requires ZAxis < cloth.Length2
    requires obstacle != null ==> ZAxis < obstacle.Length2 && obstacle != cloth
    modifies cloth, obstacle
    ensures placed.Some? <==> old(PlacementFloor(cloth, obstacle)).Some?
    ensures placed.Some? ==> placed.value.0 == cloth && placed.value.1 == obstacle
    ensures placed.None? ==> unchanged(cloth) && (obstacle != null ==> unchanged(obstacle))
    ensures placed.Some? ==>
      forall i, j, k :: 0 <= i < cloth.Length0 && 0 <= j < cloth.Length1 && 0 <= k < cloth.Length2 ==>
        cloth[i, j, k] == old(cloth[i, j, k])
          + Displacement(k, old(PlacementFloor(cloth, obstacle)).value, xShift, yShift)
    ensures placed.Some? && obstacle != null ==>
      forall i, j, k :: 0 <= i < obstacle.Length0 && 0 <= j < obstacle.Length1 && 0 <= k < obstacle.Length2 ==>
        obstacle[i, j, k] == old(obstacle[i, j, k])
          + Displacement(k, old(PlacementFloor(cloth, obstacle)).value, xShift, yShift)
    ensures placed.Some? && obstacle == null ==> IsMinimum(ClothOnlyClearance, FrameUps(cloth, 0))
    ensures placed.Some? && obstacle != null ==>
      IsMinimum(0.0, AllUps(obstacle) + FrameUps(cloth, 0))
  {
    var floor := PlacementFloor(cloth, obstacle);
    if floor.None? {
      return None;
    }
    var minZ := floor.value;
    ghost var cloth0 := FrameUps(cloth, 0);
    ghost var clothCols := UpColumns(cloth);
    Translate(cloth, minZ, xShift, yShift);
    UpColumnsLowered(cloth, clothCols, minZ);
    assert FrameUps(cloth, 0) == UpColumns(cloth)[0] == Lowered(clothCols[0], minZ);
    if obstacle != null {
      ghost var obsCols := UpColumns(obstacle);
      Translate(obstacle, minZ, xShift, yShift);
      UpColumnsLowered(obstacle, obsCols, minZ);
      FlattenLowered(obsCols, minZ);
      ObstacleFloorIsZero(cloth0, Flatten(obsCols));
    } else {
      ClothOnlyFloorIsClearance(cloth0);
    }
    placed := Some((cloth, obstacle));
  }

  /** Without an obstacle, frame-0 up coordinates 1, 5, 3 become 2, 6, 4 (the floor offset is -1). */
  method ClothOnlyExample() {
    var cloth := new real[1, 3, 3]((i, j, k) =>
      if k != UpAxis then 0.0 else if j == 0 then 1.0 else if j == 1 then 5.0 else 3.0);
    assert FrameUps(cloth, 0) == [1.0, 5.0, 3.0];
    var placed := PlaceMeshes(cloth, null, 0.0, 0.0);
    assert placed.Some?;
    assert cloth[0, 0, UpAxis] == 2.0 && cloth[0, 1, UpAxis] == 6.0 && cloth[0, 2, UpAxis] == 4.0;
  }

  /**
   * With an obstacle, a later cloth frame is not considered: cloth frame 0 at
   * height 1, cloth frame 1 at height -5 and an obstacle at height 0 give the
   * floor offset 0, and frame 1 stays 5 below the floor.
   */
  method LaterFrameBelowFloorExample() {
    var cloth := new real[2, 1, 3]((i, j, k) => if k != UpAxis then 0.0 else if i == 0 then 1.0 else -5.0);
    var obstacle := new real[1, 1, 3]((i, j, k) => 0.0);
    assert PlacementFloor(cloth, obstacle) == Some(0.0) by {
      assert FrameUps(cloth, 0) == [1.0];
      assert FrameUps(obstacle, 0) == [0.0];
      assert UpColumns(obstacle) == [[0.0]];
      assert [[0.0]][..0] == [];
      assert AllUps(obstacle) == [0.0];
    }
    var placed := PlaceMeshes(cloth, obstacle, 0.0, 0.0);
    assert placed.Some?;
    assert cloth[1, 0, UpAxis] == -5.0;
  }
}
