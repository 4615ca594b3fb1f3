/**
  Classification of a clicked world point: which stored sphere's surface it
  lies on (the one with the smallest surface error below 0.03), and which face
  of the fixed cube (half-extent 0.5, tolerance 0.02) it lies on.
*/
module Picking {
  import opened Vectors

  datatype Option<T> = None | Some(value: T)

  datatype Color = Color(red: real, green: real, blue: real)

  /** A sphere of the scene: center, radius and flat colour. */
  datatype Sphere = Sphere(c: Vector3, r: real, col: Color)

  /** Tolerance of the sphere-surface test. */
  const SphereEps: real := 0.03
  /** The cube is centered at the origin with this half side length. */
  const CubeHalf: real := 0.5
  /** Tolerance of the cube-face test. */
  const FaceEps: real := 0.02

  /** How far a point at distance `dist` from a center misses a surface of radius `r`. */
  function SurfaceError(dist: real, r: real): real {
    Abs(dist - r)
  }

  /** `dist[i]` is the distance from `p` to the center of `ss[i]`, for every sphere. */
  ghost predicate DistancesTo(p: Vector3, ss: seq<Sphere>, dist: seq<real>) {
    |dist| == |ss| && forall i :: 0 <= i < |ss| ==> IsLength(Sub(p, ss[i].c), dist[i])
  }

  /** The surface error of every sphere, in store order. */
  function Errors(ss: seq<Sphere>, dist: seq<real>): seq<real>
    requires |dist| == |ss|
  {
    seq(|ss|, i requires 0 <= i < |ss| => SurfaceError(dist[i], ss[i].r))
  }

  /**
    The selection rule of the sphere test, stated independently of any loop:
    -1 when no error is below the tolerance; otherwise an index whose error is
    below the tolerance, no larger than any other error, and strictly smaller
    than every error before it (ties go to the lowest index).
  */
  ghost predicate IsBestHit(errs: seq<real>, i: int) {
    if i == -1 then
      forall j :: 0 <= j < |errs| ==> SphereEps <= errs[j]
    else
      && 0 <= i < |errs|
      && errs[i] < SphereEps
      && (forall j :: 0 <= j < |errs| ==> errs[i] <= errs[j])
      && (forall j :: 0 <= j < i ==> errs[i] < errs[j])
  }

  /** The selection rule picks at most one index. */
  lemma BestHitUnique(errs: seq<real>, i: int, k: int)
    requires IsBestHit(errs, i) && IsBestHit(errs, k)
    ensures i == k
  {
  }

  /**
    The scan of the sphere test over a prefix of the errors: the best index
    so far, replaced only by a later error below the tolerance that is
    strictly smaller than the best one so far.
  */
  function Pick(errs: seq<real>): (best: int)
    ensures -1 <= best < |errs|
    ensures IsBestHit(errs, best)
  {
    if |errs| == 0 then -1
    else
      var front := errs[..|errs| - 1];
      var b := Pick(front);
      var e := errs[|errs| - 1];
      assert forall j :: 0 <= j < |front| ==> front[j] == errs[j];
      if e < SphereEps && (b == -1 || e < errs[b]) then |errs| - 1 else b
  }

  /** Outward normals of the six cube faces, in the order they are tested. */
  const Faces: seq<Vector3> := [
    V3(1.0, 0.0, 0.0), V3(-1.0, 0.0, 0.0),
    V3(0.0, 1.0, 0.0), V3(0.0, -1.0, 0.0),
    V3(0.0, 0.0, 1.0), V3(0.0, 0.0, -1.0)
  ]

  /** `p` lies within the tolerance of the plane of face `k`. */
  predicate OnFace(p: Vector3, k: nat)
    requires k < |Faces|
  {
    Abs(Dot(p, Faces[k]) - CubeHalf) < FaceEps
  }

  /**
    `cubeFaceNormal`: the outward normal of the first face (in the order
    +x, -x, +y, -y, +z, -z) whose plane lies within 0.02 of `p`, or None
    when there is none (`cubeFaceNormal` then returns 0 and leaves its
    normal out-parameter unwritten).
  */
  function CubeFaceNormal(p: Vector3): (n: Option<Vector3>)
    ensures n.None? <==> forall k :: 0 <= k < |Faces| ==> !OnFace(p, k)
    ensures n.Some? ==>
      exists k :: 0 <= k < |Faces| && n.value == Faces[k] && OnFace(p, k) &&
        forall j :: 0 <= j < k ==> !OnFace(p, j)
  {
    if Abs(p.x - CubeHalf) < FaceEps then
      assert OnFace(p, 0); Some(V3(1.0, 0.0, 0.0))
    else if Abs(p.x + CubeHalf) < FaceEps then
      assert OnFace(p, 1); Some(V3(-1.0, 0.0, 0.0))
    else if Abs(p.y - CubeHalf) < FaceEps then
      assert OnFace(p, 2); Some(V3(0.0, 1.0, 0.0))
    else if Abs(p.y + CubeHalf) < FaceEps then
      assert OnFace(p, 3); Some(V3(0.0, -1.0, 0.0))
    else if Abs(p.z - CubeHalf) < FaceEps then
      assert OnFace(p, 4); Some(V3(0.0, 0.0, 1.0))
    else if Abs(p.z + CubeHalf) < FaceEps then
      assert OnFace(p, 5); Some(V3(0.0, 0.0, -1.0))
    else
      None
  }
}
