/**
  The scene store — a fixed array of 2048 spheres and a count of the ones in
  use — and the two input handlers that change it: a left click adds a
  sphere placed by the placement policy, and the 'r' key empties the store.
*/
module SceneStore {
  import opened Vectors
  import opened Picking
  import opened Placement

  /** Capacity of the store. */
  const MaxSpheres: nat := 2048

  /** A key code as the keyboard handler receives it (an unsigned char). */
  newtype byte = x: int | 0 <= x < 256

  const KeyQuit: byte := 'q' as byte
  const KeyEscape: byte := 27
  const KeyReset: byte := 'r' as byte

  /** What a never-written slot of the zero-initialised array holds. */
  const ZeroSphere: Sphere := Sphere(Zero, 0.0, Color(0.0, 0.0, 0.0))

  /** The stored spheres after one `addSphere(s)`: `s` appended, or nothing when the store is full. */
  function Appended(ss: seq<Sphere>, s: Sphere): (r: seq<Sphere>)
    ensures |r| == if |ss| < MaxSpheres then |ss| + 1 else |ss|
    ensures r[..|ss|] == ss
    ensures |ss| < MaxSpheres ==> r[|ss|] == s
  {
    if MaxSpheres <= |ss| then ss else ss + [s]
  }

  /** The stored spheres after adding every sphere of `xs` in turn. */
  function AppendedAll(ss: seq<Sphere>, xs: seq<Sphere>): seq<Sphere>
    decreases |xs|
  {
    if xs == [] then ss else AppendedAll(Appended(ss, xs[0]), xs[1..])
  }

  function Min(a: int, b: int): int {
    if a <= b then a else b
  }

  /**
    Silent dropping keeps the first spheres ever added: after any run of
    additions the store holds the first 2048 of the old contents followed by
    the additions, in order, and never more than 2048.
  */
  lemma {:induction false} AppendedAllKeepsFirst(ss: seq<Sphere>, xs: seq<Sphere>)
    requires |ss| <= MaxSpheres
    ensures AppendedAll(ss, xs) == (ss + xs)[..Min(|ss| + |xs|, MaxSpheres)]
    decreases |xs|
  {
    if xs == [] {
      assert ss + xs == ss;
    } else {
      var ss' := Appended(ss, xs[0]);
      AppendedAllKeepsFirst(ss', xs[1..]);
      if |ss| < MaxSpheres {
        assert ss' + xs[1..] == ss + xs;
      } else {
        assert ss' == ss;
        assert (ss + xs[1..])[..MaxSpheres] == ss == (ss + xs)[..MaxSpheres];
      }
    }
  }

  class Scene {
    /** The fixed-size sphere array; only the first `count` slots are in use. */
    const spheres: array<Sphere>
    var count: nat

    ghost predicate Valid()
      reads this
    {
      spheres.Length == MaxSpheres && count <= MaxSpheres
    }

    /** The spheres in the scene, in insertion order. */
    ghost function Contents(): seq<Sphere>
      reads this, spheres
      requires Valid()
    {
      spheres[..count]
    }

    /** The program's initial state: a zero-initialised array and no spheres. */
    constructor ()
      ensures Valid() && fresh(spheres)
      ensures Contents() == []
      ensures forall i :: 0 <= i < spheres.Length ==> spheres[i] == ZeroSphere
    {
      spheres := new Sphere[MaxSpheres](_ => ZeroSphere);
      count := 0;
    }

    /**
      `addSphere`: below capacity `s` goes into slot `count` and the count
      grows by one, every other slot unchanged; at capacity nothing changes.
    */
    method AddSphere(s: Sphere)
      requires Valid()
      modifies this, spheres
      ensures Valid()
      ensures old(count) < MaxSpheres ==>
        count == old(count) + 1 && spheres[..] == old(spheres[..])[old(count) := s]
      ensures MaxSpheres <= old(count) ==>
        count == old(count) && spheres[..] == old(spheres[..])
      ensures Contents() == Appended(old(Contents()), s)
    {
      if count >= MaxSpheres {
        return;
      }
      spheres[count] := s;
      count := count + 1;
    }

    /**
      `keyboard`: 'q' and Esc ask to quit (the program exits, the store is
      left as it is); 'r' empties the store; every other key changes nothing.
    */
    method Keyboard(key: byte) returns (quit: bool)
      requires Valid()
      modifies this
      ensures Valid()
      ensures quit <==> key == KeyQuit || key == KeyEscape
      ensures key == KeyReset ==> count == 0 && Contents() == []
      ensures key != KeyReset ==> count == old(count) && Contents() == old(Contents())
    {
      if key == KeyQuit || key == KeyEscape {
        return true;
      }
      if key == KeyReset {
        count := 0;
      }
      return false;
    }

    /**
      `findClickedSphere`: the index of the stored sphere whose surface is
      nearest the point `p`, if that surface lies within 0.03 of `p`, else -1.
      `dist[i]` is the distance from `p` to the center of sphere `i`.
    */
    method FindClickedSphere(p: Vector3, dist: seq<real>) returns (best: int)
      requires Valid()
      requires DistancesTo(p, Contents(), dist)
      ensures best == -1 || (0 <= best < count && SurfaceError(dist[best], spheres[best].r) < SphereEps)
      ensures IsBestHit(Errors(Contents(), dist), best)
      ensures best == Pick(Errors(Contents(), dist))
    {
      ghost var errs := Errors(Contents(), dist);
      best := -1;
      var bestErr := 1e9;
      for i := 0 to count
        invariant best == Pick(errs[..i])
        invariant best == -1 ==> bestErr == 1e9
        invariant best != -1 ==> bestErr == errs[best]
      {
        // the distance from p to this sphere's center is dist[i]
        var err := SurfaceError(dist[i], spheres[i].r);
        assert errs[..i + 1][..i] == errs[..i];
        if err < SphereEps && err < bestErr {
          bestErr := err;
          best := i;
        }
      }
      assert errs[..count] == errs;
    }

    /**
      The part of `mouse` after unprojection. `leftDown` says whether the
      event was a left-button press; `point` is the unprojected world point
      (None for a background click); `radius` and `col` are the new sphere's
      random radius and colour; `dist[i]` is the distance from the point to
      the center of stored sphere `i`. A press that yields a point adds
      exactly one sphere, placed by the placement policy.
    */
    method Mouse(leftDown: bool, point: Option<Vector3>, radius: real, col: Color, dist: seq<real>)
      requires Valid()
      requires leftDown && point.Some? ==> DistancesTo(point.value, Contents(), dist)
      modifies this, spheres
      ensures Valid()
      ensures !(leftDown && point.Some?) ==>
        count == old(count) && spheres[..] == old(spheres[..]) && Contents() == old(Contents())
      ensures leftDown && point.Some? ==>
        var placed := Sphere(NewCenter(point.value, old(Contents()), dist, radius), radius, col);
        Contents() == Appended(old(Contents()), placed)
    {
      if !leftDown || point.None? {
        return;
      }
      var p := point.value;
      var newS := Sphere(p, radius, col);
      var hit := FindClickedSphere(p, dist);
      if hit >= 0 {
        var base := spheres[hit];
        var dir := TouchDirection(p, base.c, dist[hit]);
        newS := newS.(c := Add(base.c, Scale(dir, base.r + newS.r)));
        AddSphere(newS);
        return;
      }
      var n := CubeFaceNormal(p);
      if n.Some? {
        newS := newS.(c := Add(p, Scale(n.value, newS.r)));
        AddSphere(newS);
        return;
      }
      AddSphere(newS);
    }
  }
}
