/**
 * The data the scene is authored with (app/components/ThreeScene.tsx, lines
 * 49-110): ten camera positions, ten rotation keys in degrees and the
 * per-section visibility lists. The two regular expressions of sections 5 and 6
 * are kept abstract, as the tests they perform.
 */
module SceneConfig {
  import opened Options
  import opened Geometry
  import opened CameraPath
  import opened Visibility

  /**
   * `cameraPositionKeys`, sections 0 to 9: one keyframe per section, the last
   * two sections returning to the first two viewpoints.
   */
  function CameraPositionKeys(): (keys: seq<Vec3>)
    ensures |keys| == 10
    ensures keys[8] == keys[0] && keys[9] == keys[1]
  {
    [
    Vec3(5.23, 4.28, 0.67), Vec3(3.61, 5.08, 3.24), Vec3(5.84, 2.84, 1.96),
    Vec3(4.17, 2.25, 1.66), Vec3(1.45, 2.99, 0.73), Vec3(3.17, 0.95, 3.2),
    Vec3(0.89, 2.6, -1.48), Vec3(1.45, 2.04, -1.49), Vec3(5.23, 4.28, 0.67),
    Vec3(3.61, 5.08, 3.24)
    ]
  }

  /** A key authored in degrees, with no roll. */
  function DegKey(x: real, y: real): RotationKey {
    TaggedKey(x, y, 0.0, Some(Deg))
  }

  /**
   * `cameraRotationKeys`, sections 0 to 9: one key per section, every one
   * tagged `"deg"` and without roll, the last two repeating the first two.
   */
  function CameraRotationKeys(): (keys: seq<RotationKey>)
    ensures |keys| == 10
    ensures forall i :: 0 <= i < |keys| ==> keys[i].TaggedKey? && UnitOf(keys[i].unit) == Deg && keys[i].z == 0.0
    ensures keys[8] == keys[0] && keys[9] == keys[1]
  {
    [
    DegKey(-33.4, 85.1), DegKey(-42.5, 50.2), DegKey(-18.4, 73.1), DegKey(-17.1, 75.0),
    DegKey(-17.3, 57.1), DegKey(-17.8, 53.0), DegKey(-48.7, 165.0), DegKey(-36.9, 123.8),
    DegKey(-33.4, 85.1), DegKey(-42.5, 50.2)
    ]
  }

  /**
   * `visibleNodesBySection`, sections 0 to 9; `section5` and `section6` stand for
   * the regular expressions listed there. Sections 0 to 2, 8 and 9 show every
   * mesh; only sections 5 and 6 use patterns.
   */
  function VisibleNodesBySection(section5: string -> bool, section6: string -> bool): (spec: seq<seq<Matcher>>)
    ensures |spec| == 10
    ensures forall i :: 0 <= i < |spec| ==> (spec[i] == [] <==> i <= 2 || 8 <= i)
    ensures forall i :: 0 <= i < |spec| && i != 5 && i != 6 ==>
              forall j :: 0 <= j < |spec[i]| ==> spec[i][j].Exact?
  {
    [ [], [], [],
      [Exact("node89"), Exact("node90")],
      [Exact("node194"), Exact("node195"), Exact("node196"), Exact("node197"), Exact("node98")],
      [Pattern(section5)],
      [Pattern(section6)],
      [Exact("node16"), Exact("node19")],
      [], [] ]
  }
}
