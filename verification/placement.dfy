/**
  The placement policy of a left click that unprojected to a world point:
  a sphere hit is used before the cube-face test; on a sphere hit the new
  sphere is put tangent to the clicked one, on a face hit it is put on the
  face above the click point, otherwise it floats at the point itself.
*/
module Placement {
  import opened Vectors
  import opened Picking

  /** What a clicked point was classified as. */
  datatype Target = SphereHit(index: nat) | FaceHit(normal: Vector3) | NoTarget

  /** Some stored sphere's surface lies within the tolerance of the point. */
  ghost predicate AnySphereNear(ss: seq<Sphere>, dist: seq<real>)
    requires |dist| == |ss|
  {
    exists j :: 0 <= j < |ss| && SurfaceError(dist[j], ss[j].r) < SphereEps
  }

  /**
    The classification `mouse` makes of a world point `p`, given the
    distances `dist` from `p` to every stored sphere's center.
  */
  function Classify(p: Vector3, ss: seq<Sphere>, dist: seq<real>): (t: Target)
    requires |dist| == |ss|
    ensures t.SphereHit? <==> AnySphereNear(ss, dist)
    ensures t.SphereHit? ==> IsBestHit(Errors(ss, dist), t.index)
    ensures t.FaceHit? ==> !AnySphereNear(ss, dist) && CubeFaceNormal(p) == Some(t.normal)
    ensures t.NoTarget? <==>
      !AnySphereNear(ss, dist) && forall k :: 0 <= k < |Faces| ==> !OnFace(p, k)
  {
    var errs := Errors(ss, dist);
    assert forall j :: 0 <= j < |ss| ==> errs[j] == SurfaceError(dist[j], ss[j].r);
    var hit := Pick(errs);
    if hit >= 0 then
      SphereHit(hit)
    else
      match CubeFaceNormal(p)
      case Some(n) => FaceHit(n)
      case None => NoTarget
  }

  /**
    The direction from the clicked sphere's center `c` towards the click
    point `p` (whose distance from `c` is `d`): the normalised difference, or
    +Y when the normalised vector is degenerate.
  */
  function TouchDirection(p: Vector3, c: Vector3, d: real): (dir: Vector3)
    requires IsLength(Sub(p, c), d)
    ensures d < Tiny ==> dir == Up
    ensures Tiny <= d ==> dir == Scale(Sub(p, c), 1.0 / d)
  {
    var dir := Norm(Sub(p, c), d);
    // the length of `dir`: exactly 0 or 1, as NormLength shows
    var dirLen := if d < Tiny then 0.0 else 1.0;
    if dirLen < Tiny then Up else dir
  }

  /** The touch direction is always a unit vector. */
  lemma TouchDirectionIsUnit(p: Vector3, c: Vector3, d: real)
    requires IsLength(Sub(p, c), d)
    ensures IsLength(TouchDirection(p, c, d), 1.0)
  {
    if d < Tiny {
      UpIsUnit();
    } else {
      NormLength(Sub(p, c), d);
    }
  }

  /**
    The center the new sphere of radius `r` gets when `p` was clicked: moved
    from the clicked sphere's center by the sum of the radii along the touch
    direction, moved from `p` by `r` along the face normal, or `p` itself.
  */
  function NewCenter(p: Vector3, ss: seq<Sphere>, dist: seq<real>, r: real): (c: Vector3)
    requires DistancesTo(p, ss, dist)
    ensures var t := Classify(p, ss, dist);
      t.SphereHit? ==>
        Sub(c, ss[t.index].c) == Scale(TouchDirection(p, ss[t.index].c, dist[t.index]), ss[t.index].r + r)
    ensures var t := Classify(p, ss, dist);
      t.FaceHit? ==> Sub(c, p) == Scale(t.normal, r)
    ensures Classify(p, ss, dist).NoTarget? ==> c == p
  {
    match Classify(p, ss, dist)
    case SphereHit(i) =>
      var base := ss[i];
      Add(base.c, Scale(TouchDirection(p, base.c, dist[i]), base.r + r))
    case FaceHit(n) => Add(p, Scale(n, r))
    case NoTarget => p
  }

  /**
    Moving `s` from the clicked center `c` along the touch direction ends at
    distance `s` from `c`.
  */
  lemma TouchDistance(p: Vector3, c: Vector3, d: real, s: real)
    requires IsLength(Sub(p, c), d)
    requires 0.0 <= s
    ensures IsLength(Sub(Add(c, Scale(TouchDirection(p, c, d), s)), c), s)
  {
    TouchDirectionIsUnit(p, c, d);
    ShiftAlongUnit(c, TouchDirection(p, c, d), s);
  }

  /**
    Unless the click point is (nearly) the clicked center, moving from `c`
    along the touch direction stays on the ray from `c` through `p`.
  */
  lemma TouchOnRay(p: Vector3, c: Vector3, d: real, s: real)
    requires IsLength(Sub(p, c), d)
    requires Tiny <= d
    ensures Sub(Add(c, Scale(TouchDirection(p, c, d), s)), c) == Scale(Sub(p, c), s / d)
  {
  }

  /**
    On a sphere hit the new sphere touches the clicked one: the distance
    between the two centers is the sum of the radii, and the new center lies
    on the ray from the clicked center through the click point (straight
    above the clicked center when the click point is that center).
  */
  lemma SphereHitTangent(p: Vector3, ss: seq<Sphere>, dist: seq<real>, r: real)
    requires DistancesTo(p, ss, dist)
    requires Classify(p, ss, dist).SphereHit?
    requires 0.0 <= ss[Classify(p, ss, dist).index].r + r
    ensures var i := Classify(p, ss, dist).index;
      IsLength(Sub(NewCenter(p, ss, dist, r), ss[i].c), ss[i].r + r)
    ensures var i := Classify(p, ss, dist).index;
      Tiny <= dist[i] ==>
        Sub(NewCenter(p, ss, dist, r), ss[i].c) == Scale(Sub(p, ss[i].c), (ss[i].r + r) / dist[i])
    ensures var i := Classify(p, ss, dist).index;
      dist[i] < Tiny ==> NewCenter(p, ss, dist, r) == Add(ss[i].c, Scale(Up, ss[i].r + r))
  {
    var i := Classify(p, ss, dist).index;
    TouchDistance(p, ss[i].c, dist[i], ss[i].r + r);
    if Tiny <= dist[i] {
      TouchOnRay(p, ss[i].c, dist[i], ss[i].r + r);
    }
  }

  /**
    Moving the click point `p` on face `k` by `r` along the face's normal
    `n`: `r` further out along `n`, within the tolerance of `r` beyond the
    face plane, and unchanged in the two coordinates along the face.
  */
  lemma FaceOffset(p: Vector3, k: nat, r: real)
    requires k < |Faces| && OnFace(p, k)
    ensures var n := Faces[k];
      var nc := Add(p, Scale(n, r));
      && Dot(nc, n) == Dot(p, n) + r
      && Abs(Dot(nc, n) - (CubeHalf + r)) < FaceEps
      && (n.x == 0.0 ==> nc.x == p.x)
      && (n.y == 0.0 ==> nc.y == p.y)
      && (n.z == 0.0 ==> nc.z == p.z)
  {
  }

  /**
    On a face hit the new sphere rests on that face: its center is the click
    point moved by `r` along the face's outward normal, so it lies `r`
    further out than the click point, within the 0.02 tolerance of `r`
    beyond the face plane, and with the same coordinates along the face.
  */
  lemma FaceHitOnFace(p: Vector3, ss: seq<Sphere>, dist: seq<real>, r: real)
    requires DistancesTo(p, ss, dist)
    requires Classify(p, ss, dist).FaceHit?
    ensures var n := Classify(p, ss, dist).normal;
      var nc := NewCenter(p, ss, dist, r);
      && nc == Add(p, Scale(n, r))
      && Dot(nc, n) == Dot(p, n) + r
      && Abs(Dot(nc, n) - (CubeHalf + r)) < FaceEps
      && (n.x == 0.0 ==> nc.x == p.x)
      && (n.y == 0.0 ==> nc.y == p.y)
      && (n.z == 0.0 ==> nc.z == p.z)
  {
  }

  /** With neither a sphere nor a face hit the new sphere is centered at the click point. */
  lemma NoTargetFloats(p: Vector3, ss: seq<Sphere>, dist: seq<real>, r: real)
    requires DistancesTo(p, ss, dist)
    requires forall j :: 0 <= j < |ss| ==> SphereEps <= SurfaceError(dist[j], ss[j].r)
    requires forall k :: 0 <= k < |Faces| ==> !OnFace(p, k)
    ensures NewCenter(p, ss, dist, r) == p
  {
  }
}
