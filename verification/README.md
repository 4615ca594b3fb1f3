# Cube-and-spheres scene toy: scene store, picking and placement

The program shows a fixed cube (half side length 0.5, centered at the
origin). Each left click adds a small sphere of random radius and colour at
the clicked point. The click can land on the surface of an earlier sphere, on
a cube face or elsewhere. This project models the logic behind that, from
`main.c`:

- **Vector helpers** (`Vectors`): `v3`, `vadd`, `vsub`, `vmul`, `vdot` and
  `vnorm` over `real` coordinates. Dafny has no square root, so `vlen` is
  never computed. A length is a value the caller supplies, together with the
  fact `IsLength(v, l)` (`l >= 0` and `l * l == vdot(v, v)`). In real
  arithmetic that is exactly what `sqrt(vdot(v, v))` returns. `Norm` takes
  that length and returns the zero vector below 1e-12. Otherwise it returns
  a vector proved to have length exactly 1.
- **Picking** (`Picking`):
  - The sphere-surface test picks the sphere with the smallest surface error
    `|dist - r|`, and only if that error is below 0.03. Ties go to the lowest
    index.
  - The cube-face test checks the planes in the order +x, -x, +y, -y, +z, -z,
    with tolerance 0.02, and returns the first face that matches.
- **Placement** (`Placement`): what `mouse` does once it has a world point.
  - A sphere hit takes priority over the cube-face test.
  - On a sphere hit, the new sphere is placed tangent to the clicked one, along
    the normalised direction from that sphere's center to the click point. If
    that direction is degenerate, +Y is used instead.
  - On a face hit, the new center is the click point moved by the new radius
    along the face normal.
  - Otherwise the new sphere sits at the point itself.
- **Scene store** (`SceneStore.Scene`): a class over a 2048-slot `array` and a
  count. It has these operations:
  - `AddSphere` appends, or drops the sphere silently when the store is full.
  - `Keyboard` covers the `'r'` reset and the quit keys.
  - `FindClickedSphere` is the scan loop.
  - `Mouse` is the click handler after unprojection. It always submits exactly
    one sphere to `AddSphere`.

The length `vlen(dir)` of the normalised direction, tested in `mouse` against
1e-12, is not supplied from outside. `NormLength` proves it is exactly 0 when
the original length is below 1e-12 and exactly 1 otherwise. `TouchDirection`
uses that value.

On a face hit the center is the click point moved by `r` along the normal.
The face test accepts points up to 0.02 off the plane, so the center is
exactly `r` beyond the click point and only within 0.02 of `r` beyond the
plane (`FaceOffset`, `FaceHitOnFace`).

## Model

| member | source | states |
|---|---|---|
| `Vectors.Norm` | main.c:55-59 | below length 1e-12 the result is the zero vector; otherwise it is `a` scaled by `1/len` and has length exactly 1 |
| `Vectors.NormLength` | main.c:55-59 | the length of the normalised vector is exactly 0 when the input length is below 1e-12 and exactly 1 otherwise |
| `Vectors.DotScale` | main.c:40-47 | scaling a vector by `s` multiplies its squared length by `s * s` |
| `Vectors.ScaledUnitLength` | main.c:40-52 | a unit vector scaled by `s >= 0` has length `s` |
| `Vectors.ShiftAlongUnit` | main.c:30-52 | moving a point by `s >= 0` along a unit vector ends exactly `s` away from it |
| `Picking.Pick` | main.c:158-175 | the scan's result satisfies the selection rule: -1 exactly when no error is below 0.03; otherwise an index with error below 0.03, no larger than any error, and strictly smaller than every earlier error |
| `Picking.BestHitUnique` | main.c:170-173 | the selection rule determines at most one index |
| `Picking.CubeFaceNormal` | main.c:180-192 | no normal exactly when no face plane lies within 0.02 of the point; otherwise the normal of the first matching face in the order +x, -x, +y, -y, +z, -z |
| `Placement.Classify` | main.c:296-328 | a sphere hit exactly when some sphere's surface error is below 0.03, and then the best hit; a face hit only when no sphere is hit, with the face test's normal; nothing when no sphere and no face matches |
| `Placement.TouchDirection` | main.c:302-306 | +Y when the distance to the clicked center is below 1e-12; otherwise the difference divided by that distance |
| `Placement.TouchDirectionIsUnit` | main.c:302-306 | the touch direction always has length exactly 1 |
| `Placement.NewCenter` | main.c:298-328 | on a sphere hit the center is the clicked center moved by the sum of the radii along the touch direction; on a face hit it is the click point moved by `r` along the face normal; otherwise it is the click point. `SphereHitTangent`, `FaceHitOnFace` and `NoTargetFloats` give its geometry |
| `Placement.TouchDistance` | main.c:309-310 | moving `s >= 0` from the clicked center along the touch direction ends exactly `s` from that center |
| `Placement.TouchOnRay` | main.c:302-310 | for a non-degenerate direction, the new center lies on the ray from the clicked center through the click point |
| `Placement.SphereHitTangent` | main.c:298-313 | on a sphere hit the distance between the two centers is the sum of the radii, along the ray through the click point, or straight up when the click point is the clicked center |
| `Placement.FaceOffset` | main.c:321-322 | moving a point on face `k` by `r` along its normal: `r` further out along the normal, within 0.02 of `r` beyond the plane, and the two coordinates along the face unchanged |
| `Placement.FaceHitOnFace` | main.c:319-326 | on a face hit the new center is the click point plus `r` times the normal, with the facts of `FaceOffset` |
| `Placement.NoTargetFloats` | main.c:328 | with no sphere within 0.03 and no face within 0.02, the new sphere is centered at the click point |
| `SceneStore.Appended` | main.c:196-199 | the effect of one `addSphere` on the stored spheres: one longer below 2048, the same length at 2048; the earlier spheres unchanged; the new sphere at the old end |
| `SceneStore.AppendedAllKeepsFirst` | main.c:196-199 | after any run of additions the store holds the earlier contents followed by the additions, cut off at 2048: the first spheres are kept and later ones dropped |
| `SceneStore.Scene.constructor` | main.c:73-74 | the store starts empty over a zero-initialised 2048-slot array |
| `SceneStore.Scene.AddSphere` | main.c:196-199 | below capacity the sphere goes into slot `count`, the count grows by one and every other slot is unchanged; at capacity the array and the count are unchanged; `count <= 2048` is kept |
| `SceneStore.Scene.Keyboard` | main.c:334-341 | quit exactly on 'q' or Esc; 'r' sets the count to 0 whatever it was; any other key leaves the store unchanged |
| `SceneStore.Scene.FindClickedSphere` | main.c:156-176 | returns -1 or an index below the count whose surface error is below 0.03, and it is the index the selection rule determines (`Pick`) |
| `SceneStore.Scene.Mouse` | main.c:279-330 | a left press that yields a point adds exactly one sphere (or none when full), with the given radius and colour and the center `NewCenter` gives; anything else leaves the count and the whole array unchanged |

## Left out

- The square root. Every distance (`dist` for each stored sphere) is an input constrained by `IsLength`; `vlen` itself is not modelled.
- Floating point. Coordinates, radii and colours are `real`. The program mixes `double` with `float` radii and rounds, so its tangency holds only approximately. The exact tangency proved here is a statement about real arithmetic.
- `unprojectAt` (depth read-back and `gluUnProject` through the graphics library). Its result is the `point` input of `Mouse`: None for a background click or a failed unprojection.
- The mouse button and state test. It is reduced to the `leftDown` flag, because the button and state codes belong to the windowing library.
- Random generation (`frand01`, `frandRange`, `makeRandomSphere`, seeding from the clock). The radius and colour are inputs of `Mouse` with no range precondition, and the model's facts hold for any values. Tangency needs the two radii to sum to a non-negative number.
- SceneStore.Scene.Keyboard: on 'q' or Esc the program calls `exit(0)`. The model returns `quit` = true and leaves the store as it was; ending the process is not modelled.
- Redisplay requests and pipeline flushes (`glutPostRedisplay`, `glFinish`). They only order rendering.
- Rendering and window set-up (`display`, `setupLights`, `reshape`, `initGL`, `main`) and the fixed camera. They consist of graphics-library calls and hold no logic the store depends on.
