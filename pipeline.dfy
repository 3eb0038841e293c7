/**
 * The whole path from a scroll reading to what the scene shows, with the
 * authored data: the page's handler (app/page.tsx, lines 20-25), the section
 * coordinate (app/components/ThreeScene.tsx, line 112), the camera target and
 * the mesh opacities.
 */
module Pipeline {
  import opened Options
  import opened Geometry
  import opened ScrollMapper
  import opened Sections
  import opened CameraPath
  import opened Visibility
  import opened SceneConfig

  /** The section coordinate the scene derives from one scroll reading. */
  function CoordinateOf(scrollTop: real, scrollHeight: real, clientHeight: real): (s: real)
    requires clientHeight > 0.0
    ensures MaxScroll(scrollHeight, clientHeight) <= 0.0 ==> s == 0.0
    ensures MaxScroll(scrollHeight, clientHeight) > 0.0 ==>
              s * MaxScroll(scrollHeight, clientHeight) == NUM_SECTIONS as real * scrollTop
    ensures 0.0 <= scrollTop <= MaxScroll(scrollHeight, clientHeight) ==> 0.0 <= s <= NUM_SECTIONS as real
  {
    var r := HandleScroll(scrollTop, scrollHeight, clientHeight);
    SectionCoordinate(r.progress, r.currentSection)
  }

  /**
   * Any scroll position the container can hold maps into [0, 8], so with the
   * ten authored keyframes the camera target is always the blend of keyframes
   * `floor(s)` and `floor(s) + 1`, and keyframe 9 only ever serves as an end.
   */
  lemma ReachableTargetsInterpolate(scrollTop: real, scrollHeight: real, clientHeight: real)
    requires clientHeight > 0.0
    requires 0.0 <= scrollTop <= MaxScroll(scrollHeight, clientHeight)
    ensures var s := CoordinateOf(scrollTop, scrollHeight, clientHeight);
            var k := s.Floor;
            0.0 <= s <= NUM_SECTIONS as real && 0 <= k <= 8 &&
            TargetPosition(s, CameraPositionKeys(), |NormalizeRotationKeys(CameraRotationKeys())|) ==
              LerpVec(CameraPositionKeys()[k], CameraPositionKeys()[k + 1], s - k as real)
  {
    var s := CoordinateOf(scrollTop, scrollHeight, clientHeight);
    TargetInsideRange(s, CameraPositionKeys(), |NormalizeRotationKeys(CameraRotationKeys())|);
  }

  /**
   * Halfway down a page two screens tall: progress 0.5, section 0, coordinate 4,
   * and the camera target is the keyframe authored for section 4.
   */
  lemma HalfwayScenario()
    ensures HandleScroll(250.0, 1000.0, 500.0) == ScrollReading(0.5, 0)
    ensures CoordinateOf(250.0, 1000.0, 500.0) == 4.0
    ensures TargetPosition(4.0, CameraPositionKeys(), |NormalizeRotationKeys(CameraRotationKeys())|) == Vec3(1.45, 2.99, 0.73)
  {
    assert (250.0 / 500.0).Floor == 0;
    TargetAtKeyframe(4, CameraPositionKeys(), |NormalizeRotationKeys(CameraRotationKeys())|);
  }

  /** At the top of the page the camera aims at the first keyframe. */
  lemma TopScenario(scrollHeight: real, clientHeight: real)
    requires clientHeight > 0.0
    ensures CoordinateOf(0.0, scrollHeight, clientHeight) == 0.0
    ensures TargetPosition(0.0, CameraPositionKeys(), |NormalizeRotationKeys(CameraRotationKeys())|) == Vec3(5.23, 4.28, 0.67)
  {
    TargetAtKeyframe(0, CameraPositionKeys(), |NormalizeRotationKeys(CameraRotationKeys())|);
  }

  /**
   * Sections 0 to 2 have empty lists, so up to coordinate 2 every mesh is fully
   * opaque, whatever the patterns of sections 5 and 6.
   */
  lemma OpeningSectionsShowAll(section: real, name: string, section5: string -> bool, section6: string -> bool)
    requires 0.0 <= section <= 2.0
    ensures MeshOpacity(VisibleNodesBySection(section5, section6), section, name) == 1.0
  {
    var spec := VisibleNodesBySection(section5, section6);
    var g := VisibilitySegment(spec, section);
    assert VisibleByRule(ListAt(spec, g.sectionIndex), name);
  }

  /** The sides a mesh is on at coordinate `k + 0.5`: the lists of sections `k` and `k + 1`. */
  lemma SidesAtMidpoint(spec: seq<seq<Matcher>>, k: int)
    requires |spec| == 10 && 0 <= k < 9
    ensures VisibilitySegment(spec, k as real + 0.5) == Segment(k, k + 1, 0.5)
  {
  }

  /** `node194` is listed in section 4 only: hidden on side 3, visible on side 4. */
  lemma Node194Sides(section5: string -> bool, section6: string -> bool)
    ensures var spec := VisibleNodesBySection(section5, section6);
            !VisibleByRule(spec[3], "node194") && VisibleByRule(spec[4], "node194")
  {
    var spec := VisibleNodesBySection(section5, section6);
    assert Accepts(spec[4][0], "node194");
  }

  /** Section 2 shows everything; section 3 lists `node89` but no unnamed mesh. */
  lemma SidesTwoAndThree(section5: string -> bool, section6: string -> bool)
    ensures var spec := VisibleNodesBySection(section5, section6);
            VisibleByRule(spec[2], "node89") && VisibleByRule(spec[3], "node89") &&
            VisibleByRule(spec[2], "") && !VisibleByRule(spec[3], "")
  {
    var spec := VisibleNodesBySection(section5, section6);
    assert Accepts(spec[3][0], "node89");
  }

  /**
   * Cross-fades: halfway from section 3 to 4, `node194` (listed in section 4
   * only) is at 0.575, the midpoint of 0.15 and 1; halfway from section 2 (show
   * all) to section 3, `node89` stays fully opaque while an unnamed mesh, tested
   * as the empty name, is halfway faded.
   */
  lemma CrossFadeScenario(section5: string -> bool, section6: string -> bool)
    ensures var spec := VisibleNodesBySection(section5, section6);
            MeshOpacity(spec, 3.5, "node194") == 0.575 &&
            MeshOpacity(spec, 2.5, "node89") == 1.0 &&
            MeshOpacity(spec, 2.5, MeshName(None)) == 0.575
  {
    var spec := VisibleNodesBySection(section5, section6);
    SidesAtMidpoint(spec, 3);
    SidesAtMidpoint(spec, 2);
    Node194Sides(section5, section6);
    SidesTwoAndThree(section5, section6);
    assert BlendOpacity(false, true, 0.5) == 0.575;
    assert BlendOpacity(true, true, 0.5) == 1.0;
    assert BlendOpacity(true, false, 0.5) == 0.575;
  }
}
