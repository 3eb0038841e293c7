/**
 * The camera side of app/components/ThreeScene.tsx: keyframe lookup with its
 * fallback, the interpolated target position (lines 15-22), the one-time
 * conversion of rotation keys to radians (lines 80-93) and the per-frame
 * approach of the live camera towards its target (lines 32-37).
 */
module CameraPath {
  import opened Options
  import opened Geometry
  import opened Sections

  // ---------------------------------------------------------------------------
  // Position keyframes

  /** `keys[i] || new THREE.Vector3()`: a missing entry reads as the origin. */
  function KeyAt(keys: seq<Vec3>, i: int): Vec3 {
    if 0 <= i < |keys| then keys[i] else Zero
  }

  /**
   * `Math.max(positionKeys.length, rotationKeys.length) - 1`: the last index of
   * the longer list, -1 when both are empty.
   */
  function CameraMaxIndex(positionCount: nat, rotationCount: nat): (m: int)
    ensures positionCount <= m + 1 && rotationCount <= m + 1
    ensures m + 1 == positionCount || m + 1 == rotationCount
  {
    Max(positionCount, rotationCount) - 1
  }

  /**
   * The keyframe a segment end refers to, through `Math.min(index, keys.length - 1)`
   * and the `|| new THREE.Vector3()` default: an index within the list reads its
   * entry, one past the end reads the last entry, and an empty list or a
   * negative index reads the origin.
   */
  function SegmentKey(keys: seq<Vec3>, index: int): (k: Vec3)
    ensures 0 <= index < |keys| ==> k == keys[index]
    ensures 0 < |keys| <= index + 1 ==> k == keys[|keys| - 1]
    ensures keys == [] || index < 0 ==> k == Zero
  {
    KeyAt(keys, Min(index, |keys| - 1))
  }

  /**
   * The camera's target position for a section coordinate: the two keyframes
   * at the ends of the coordinate's segment, blended by the segment fraction.
   * The index range is taken from the longer of the two key lists; an entry past
   * the end of the position list falls back on its last entry, and an empty list
   * on the origin.
   */
  function TargetPosition(section: real, positionKeys: seq<Vec3>, rotationCount: nat): (p: Vec3)
    ensures |positionKeys| == 0 ==> p == Zero
    ensures |positionKeys| > 0 ==>
              var g := SelectSegment(section, CameraMaxIndex(|positionKeys|, rotationCount));
              InBox(SegmentKey(positionKeys, g.sectionIndex), SegmentKey(positionKeys, g.nextIndex), p)
  {
    var g := SelectSegment(section, CameraMaxIndex(|positionKeys|, rotationCount));
    var posA := SegmentKey(positionKeys, g.sectionIndex);
    var posB := SegmentKey(positionKeys, g.nextIndex);
    LerpVec(posA, posB, g.t)
  }

  /** At a whole-number coordinate the target is that keyframe exactly. */
  lemma TargetAtKeyframe(k: int, positionKeys: seq<Vec3>, rotationCount: nat)
    requires 0 <= k < |positionKeys|
    ensures TargetPosition(k as real, positionKeys, rotationCount) == positionKeys[k]
  {
    SegmentAtKeyframe(k, CameraMaxIndex(|positionKeys|, rotationCount));
  }

  /** Below the first section the target is the first keyframe. */
  lemma TargetBelowRange(section: real, positionKeys: seq<Vec3>, rotationCount: nat)
    requires section < 0.0 && |positionKeys| > 0
    ensures TargetPosition(section, positionKeys, rotationCount) == positionKeys[0]
  {
  }

  /**
   * At or past the last position keyframe the target is that keyframe, also
   * between it and a larger `maxIndex` set by a longer rotation list.
   */
  lemma TargetAboveRange(section: real, positionKeys: seq<Vec3>, rotationCount: nat)
    requires |positionKeys| > 0
    requires (|positionKeys| - 1) as real <= section
    ensures TargetPosition(section, positionKeys, rotationCount) == positionKeys[|positionKeys| - 1]
  {
  }

  /**
   * Inside the range of the position keys, however long the rotation list, the
   * target is the straight-line blend of keyframes `floor(s)` and `floor(s) + 1`
   * by the fractional part of `s`, the last keyframe standing in for the one after it.
   */
  lemma TargetInsideRange(section: real, positionKeys: seq<Vec3>, rotationCount: nat)
    requires 0.0 <= section <= (|positionKeys| - 1) as real
    ensures var k := section.Floor;
            0 <= k < |positionKeys| &&
            TargetPosition(section, positionKeys, rotationCount) ==
              LerpVec(positionKeys[k], positionKeys[Min(k + 1, |positionKeys| - 1)], section - k as real)
  {
  }

  /**
   * The path has no jump at a keyframe: the end of segment `k` (fraction 1) is
   * where the camera target sits at coordinate `k + 1`.
   */
  lemma TargetContinuousAtKeyframe(k: int, positionKeys: seq<Vec3>, rotationCount: nat)
    requires 0 <= k && k + 1 < |positionKeys|
    ensures LerpVec(positionKeys[k], positionKeys[k + 1], 1.0) ==
            TargetPosition((k + 1) as real, positionKeys, rotationCount)
  {
    TargetAtKeyframe(k + 1, positionKeys, rotationCount);
  }

  // ---------------------------------------------------------------------------
  // Rotation keys

  /** `Math.PI`, as written in decimal. */
  const PI: real := 3.141592653589793

  /** `MathUtils.DEG2RAD` and `MathUtils.RAD2DEG`. */
  const DEG2RAD: real := PI / 180.0
  const RAD2DEG: real := 180.0 / PI

  function DegToRad(degrees: real): real { degrees * DEG2RAD }
  function RadToDeg(radians: real): real { radians * RAD2DEG }

  lemma {:induction false} DegreesRoundTrip(d: real)
    ensures RadToDeg(DegToRad(d)) == d
  {
    assert DEG2RAD * RAD2DEG == 1.0;
    calc {
      RadToDeg(DegToRad(d));
      (d * DEG2RAD) * RAD2DEG;
      d * (DEG2RAD * RAD2DEG);
    }
  }

  datatype AngleUnit = Deg | Rad

  /**
   * An authored rotation key: either a ready `Vector3` (radians) or a plain
   * object whose optional `unit` tag says how to read its three angles.
   */
  datatype RotationKey =
    | VectorKey(v: Vec3)
    | TaggedKey(x: real, y: real, z: real, unit: Option<AngleUnit>)

  /** The unit a tagged key is read in: `k.unit ?? "rad"`. */
  function UnitOf(unit: Option<AngleUnit>): AngleUnit {
    if unit.Some? then unit.value else Rad
  }

  /** One key in radians: vectors and radian keys as they are, degree keys converted. */
  function NormalizeKey(k: RotationKey): (v: Vec3)
    ensures k.VectorKey? ==> v == k.v
    ensures k.TaggedKey? && UnitOf(k.unit) == Rad ==> v == Vec3(k.x, k.y, k.z)
    // a degree key becomes the radian vector that reads back as the authored degrees
    ensures k.TaggedKey? && UnitOf(k.unit) == Deg ==>
              Vec3(RadToDeg(v.x), RadToDeg(v.y), RadToDeg(v.z)) == Vec3(k.x, k.y, k.z)
  {
    match k
    case VectorKey(v) => v
    case TaggedKey(x, y, z, unit) =>
      if UnitOf(unit) == Deg then
        DegreesRoundTrip(x);
        DegreesRoundTrip(y);
        DegreesRoundTrip(z);
        Vec3(DegToRad(x), DegToRad(y), DegToRad(z))
      else
        Vec3(x, y, z)
  }

  /** `cameraRotationKeys.map(...)`: every key in radians, one for one and in order. */
  function NormalizeRotationKeys(keys: seq<RotationKey>): (r: seq<Vec3>)
    ensures |r| == |keys|
    ensures forall i :: 0 <= i < |keys| ==> r[i] == NormalizeKey(keys[i])
  {
    if keys == [] then [] else [NormalizeKey(keys[0])] + NormalizeRotationKeys(keys[1..])
  }

  // ---------------------------------------------------------------------------
  // Per-frame smoothing

  /** The fraction of the remaining distance the camera covers each frame. */
  const SMOOTHING: real := 0.1

  /**
   * `camera.position.lerp(target, 0.1)`: one frame's step. What is left of the
   * distance to the target is nine tenths of what it was, the step never
   * overshoots, and a camera at the target stays put.
   */
  function Approach(p: Vec3, target: Vec3): (q: Vec3)
    ensures Sub(q, target) == Scale(0.9, Sub(p, target))
    ensures InBox(p, target, q)
    ensures p == target ==> q == p
  {
    LerpVec(p, target, SMOOTHING)
  }

  /** `b` to the power `n`. */
  function Pow(b: real, n: nat): real {
    if n == 0 then 1.0 else b * Pow(b, n - 1)
  }

  /** Where the camera is after `n` frames towards a target that does not move. */
  function Settle(p: Vec3, target: Vec3, n: nat): Vec3 {
    if n == 0 then p else Approach(Settle(p, target, n - 1), target)
  }

  /** Scaling twice is scaling by the product. */
  lemma ScaleTwice(a: real, b: real, v: Vec3)
    ensures Scale(a, Scale(b, v)) == Scale(a * b, v)
  {
    assert a * (b * v.x) == (a * b) * v.x;
    assert a * (b * v.y) == (a * b) * v.y;
    assert a * (b * v.z) == (a * b) * v.z;
  }

  /** After `n` frames the remaining offset is `0.9^n` of the initial one. */
  lemma {:induction false} SettleDistance(p: Vec3, target: Vec3, n: nat)
    ensures Sub(Settle(p, target, n), target) == Scale(Pow(0.9, n), Sub(p, target))
  {
    if n > 0 {
      var q := Settle(p, target, n - 1);
      SettleDistance(p, target, n - 1);
      assert Sub(Approach(q, target), target) == Scale(0.9, Sub(q, target));
      ScaleTwice(0.9, Pow(0.9, n - 1), Sub(p, target));
    }
  }

  /** The renderer's camera; only its position is modelled. */
  class Camera {
    var position: Vec3

    constructor (position: Vec3)
      ensures this.position == position
    {
      this.position := position;
    }
  }

  /**
   * `CameraController`: its key lists (the rotation list only fixes the index
   * range here) and the `targetPos` ref it keeps between frames.
   */
  class CameraController {
    const positionKeys: seq<Vec3>
    const rotationKeys: seq<Vec3>
    var targetPos: Vec3

    /** The ref starts at (5.58, 3.7, 1.01). */
    constructor (positionKeys: seq<Vec3>, rotationKeys: seq<Vec3>)
      ensures this.positionKeys == positionKeys && this.rotationKeys == rotationKeys
      ensures targetPos == Vec3(5.58, 3.7, 1.01)
    {
      this.positionKeys := positionKeys;
      this.rotationKeys := rotationKeys;
      targetPos := Vec3(5.58, 3.7, 1.01);
    }

    /**
     * The `useFrame` callback: recompute the target for the current coordinate,
     * then move the live camera one smoothing step towards it.
     */
    method Frame(section: real, camera: Camera)
      modifies this`targetPos, camera`position
      ensures targetPos == TargetPosition(section, positionKeys, |rotationKeys|)
      ensures camera.position == Approach(old(camera.position), targetPos)
      ensures Sub(camera.position, targetPos) == Scale(0.9, Sub(old(camera.position), targetPos))
    {
      var lerpedPos := TargetPosition(section, positionKeys, |rotationKeys|);
      targetPos := lerpedPos;
      camera.position := Approach(camera.position, targetPos);
    }
  }
}
