/**
 * The continuous section coordinate (app/components/ThreeScene.tsx, line 112) and
 * the indexing rule that both the camera path and the visibility blend apply to it
 * (lines 15-18 and 143-146).
 */
module Sections {
  import opened Geometry

  /** `NUM_SECTIONS` of the scene. */
  const NUM_SECTIONS: int := 8

  /**
   * `currentSection + (scrollProgress - currentSection / NUM_SECTIONS) * NUM_SECTIONS`.
   * Over the reals the section number cancels out: the coordinate is the
   * progress ratio stretched over the eight sections, whatever section number
   * the page reports.
   */
  function SectionCoordinate(scrollProgress: real, currentSection: int): (s: real)
    ensures s == scrollProgress * NUM_SECTIONS as real
    ensures 0.0 <= scrollProgress <= 1.0 ==> 0.0 <= s <= NUM_SECTIONS as real
  {
    var n := NUM_SECTIONS as real;
    currentSection as real + (scrollProgress - currentSection as real / n) * n
  }

  /**
   * Where a coordinate falls among the keyframes: the keyframe before it
   * (`sectionIndex`), the one after it (`nextIndex`) and how far along (`t`).
   */
  datatype Segment = Segment(sectionIndex: int, nextIndex: int, t: real)

  /**
   * `sectionIndex = max(0, min(floor(section), maxIndex))`,
   * `nextIndex = min(sectionIndex + 1, maxIndex)`,
   * `t = clamp(section - sectionIndex, 0, 1)`.
   * `maxIndex` is one less than the length of the keyframe list, so it is -1
   * when the list is empty; `nextIndex` then falls below 0 too.
   */
  function SelectSegment(section: real, maxIndex: int): (g: Segment)
    ensures 0.0 <= g.t <= 1.0
    ensures 0 <= g.sectionIndex && g.nextIndex <= maxIndex
    ensures 0 <= maxIndex ==>
              g.sectionIndex <= g.nextIndex <= g.sectionIndex + 1 && g.sectionIndex <= maxIndex
    ensures maxIndex < 0 ==> g.sectionIndex == 0 && g.nextIndex == maxIndex
    // below the first keyframe: pinned to it, no extrapolation
    ensures section < 0.0 ==> g.sectionIndex == 0 && g.t == 0.0
    ensures section < 0.0 && 1 <= maxIndex ==> g.nextIndex == 1
    // before the last keyframe the second end is the keyframe that follows
    ensures 0 <= g.sectionIndex < maxIndex ==> g.nextIndex == g.sectionIndex + 1
    // at or beyond the last keyframe: both ends are that keyframe
    ensures 0 <= maxIndex && maxIndex as real <= section ==>
              g.sectionIndex == g.nextIndex == maxIndex
    // inside the range: the segment is the one containing the coordinate,
    // and index plus fraction give the coordinate back
    ensures 0.0 <= section <= maxIndex as real ==>
              g.sectionIndex as real <= section < g.sectionIndex as real + 1.0 &&
              g.sectionIndex as real + g.t == section
  {
    var sectionIndex := Max(0, Min(section.Floor, maxIndex));
    var nextIndex := Min(sectionIndex + 1, maxIndex);
    Segment(sectionIndex, nextIndex, Clamp(section - sectionIndex as real, 0.0, 1.0))
  }

  /** At a whole-number coordinate within range the fraction is 0 and the segment starts there. */
  lemma SegmentAtKeyframe(k: int, maxIndex: int)
    requires 0 <= k <= maxIndex
    ensures SelectSegment(k as real, maxIndex) == Segment(k, Min(k + 1, maxIndex), 0.0)
  {
  }
}
