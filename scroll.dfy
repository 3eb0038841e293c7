/**
 * The arithmetic of the page's scroll handler (app/page.tsx): from the scroll
 * container's `scrollTop`, `scrollHeight` and `clientHeight` to a whole-document
 * progress ratio and a per-viewport section number.
 */
module ScrollMapper {
  import opened Geometry

  /** The upper bound the handler puts on `currentSection` (sections 0 to 10). */
  const SECTION_CAP: int := 10

  /** The two values the handler hands to the scene on every scroll event. */
  datatype ScrollReading = ScrollReading(progress: real, currentSection: int)

  /** How far the container can scroll: `scrollHeight - clientHeight`. */
  function MaxScroll(scrollHeight: real, clientHeight: real): real {
    scrollHeight - clientHeight
  }

  /**
   * `maxScroll > 0 ? scrollTop / maxScroll : 0`. With no scrollable overflow the
   * ratio is 0 and nothing is divided; otherwise it is the fraction of the
   * scrollable range that lies above the viewport.
   */
  function Progress(scrollTop: real, scrollHeight: real, clientHeight: real): (p: real)
    ensures MaxScroll(scrollHeight, clientHeight) <= 0.0 ==> p == 0.0
    ensures MaxScroll(scrollHeight, clientHeight) > 0.0 ==>
              p * MaxScroll(scrollHeight, clientHeight) == scrollTop
    ensures 0.0 <= scrollTop <= MaxScroll(scrollHeight, clientHeight) ==> 0.0 <= p <= 1.0
  {
    var maxScroll := MaxScroll(scrollHeight, clientHeight);
    if maxScroll > 0.0 then
      var p := scrollTop / maxScroll;
      assert 0.0 <= scrollTop <= maxScroll ==> 0.0 <= p <= 1.0 by {
        if 0.0 <= scrollTop <= maxScroll {
          assert scrollTop / maxScroll <= maxScroll / maxScroll;
        }
      }
      p
    else
      0.0
  }

  /**
   * `Math.min(Math.floor(scrollTop / clientHeight), 10)`: the number of whole
   * viewports scrolled past, capped from above only.
   */
  function CurrentSection(scrollTop: real, clientHeight: real): (c: int)
    requires clientHeight > 0.0
    ensures c <= SECTION_CAP
    ensures c < SECTION_CAP ==>
              c as real * clientHeight <= scrollTop < (c as real + 1.0) * clientHeight
    ensures c == SECTION_CAP ==> SECTION_CAP as real * clientHeight <= scrollTop
    ensures 0.0 <= scrollTop ==> 0 <= c
  {
    var q := scrollTop / clientHeight;
    var f := q.Floor;
    FloorBracketsQuotient(scrollTop, clientHeight);
    if f <= SECTION_CAP then f else (ProductMonotone(SECTION_CAP as real, f as real, clientHeight); SECTION_CAP)
  }

  /** `floor(a / h) * h <= a < (floor(a / h) + 1) * h` for a positive height `h`. */
  lemma FloorBracketsQuotient(a: real, h: real)
    requires h > 0.0
    ensures (a / h).Floor as real * h <= a
    ensures a < ((a / h).Floor as real + 1.0) * h
  {
    var q := a / h;
    var f := q.Floor as real;
    assert q * h == a;
    ProductMonotone(f, q, h);
    ProductStrictlyMonotone(q, f + 1.0, h);
    assert q * h < (f + 1.0) * h;
    assert a < (f + 1.0) * h;
  }

  /** The whole handler: both values, computed from one reading of the container. */
  function HandleScroll(scrollTop: real, scrollHeight: real, clientHeight: real): (r: ScrollReading)
    requires clientHeight > 0.0
    ensures r.currentSection <= SECTION_CAP
    ensures MaxScroll(scrollHeight, clientHeight) <= 0.0 ==> r.progress == 0.0
    ensures 0.0 <= scrollTop <= MaxScroll(scrollHeight, clientHeight) ==>
              0.0 <= r.progress <= 1.0 && 0 <= r.currentSection
  {
    ScrollReading(Progress(scrollTop, scrollHeight, clientHeight), CurrentSection(scrollTop, clientHeight))
  }

  /** The ratio runs from 0 at the top of the page to 1 at the bottom. */
  lemma ProgressEndpoints(scrollHeight: real, clientHeight: real)
    requires MaxScroll(scrollHeight, clientHeight) > 0.0
    ensures Progress(0.0, scrollHeight, clientHeight) == 0.0
    ensures Progress(MaxScroll(scrollHeight, clientHeight), scrollHeight, clientHeight) == 1.0
  {
  }

  /** Whenever the floor is within the cap, the section is exactly that floor. */
  lemma SectionIsFloor(scrollTop: real, clientHeight: real)
    requires clientHeight > 0.0
    requires (scrollTop / clientHeight).Floor <= SECTION_CAP
    ensures CurrentSection(scrollTop, clientHeight) == (scrollTop / clientHeight).Floor
  {
  }

  /** Scrolling further down never moves the section number back. */
  lemma {:induction false} SectionMonotone(a: real, b: real, clientHeight: real)
    requires clientHeight > 0.0
    requires a <= b
    ensures CurrentSection(a, clientHeight) <= CurrentSection(b, clientHeight)
  {
    assert a / clientHeight <= b / clientHeight by {
      assert b / clientHeight - a / clientHeight == (b - a) / clientHeight;
    }
  }
}
