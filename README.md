# Scroll-driven camera and visibility, modelled in Dafny

The page shows a 3D model beside a scrolling column of text. Every scroll event
reads three numbers from the scroll container: `scrollTop`, `scrollHeight` and
`clientHeight`. From them the page computes two values:

- a progress ratio;
- a whole section number, capped at 10.

The scene folds these two values into one continuous section coordinate. It
then applies one indexing rule twice:

- to pick and blend the two camera position keyframes on either side of the
  coordinate;
- to pick and blend the two per-section visibility lists.

A mesh is fully opaque on a side whose list shows it, and dimmed to 0.15 on a
side whose list does not. The two sides' opacities are blended, and the result
is written into the mesh's material. Each frame the live camera moves a tenth
of the way towards its target position.

Layout of the project:

| file | module | contents |
|---|---|---|
| `options.dfy` | `Options` | the optional value used for untagged units and unnamed meshes |
| `geometry.dfy` | `Geometry` | 3-vectors; `clamp`; `MathUtils.lerp`; `Vector3.lerp` |
| `scroll.dfy` | `ScrollMapper` | the scroll handler of `app/page.tsx` |
| `sections.dfy` | `Sections` | the section coordinate; the shared index/fraction rule |
| `camera.dfy` | `CameraPath` | keyframe lookup and target position; rotation-key conversion; per-frame smoothing |
| `visibility.dfy` | `Visibility` | the visibility resolver; the opacity blend; the traversal that writes materials |
| `scene_config.dfy` | `SceneConfig` | the authored keyframes and visibility lists |
| `pipeline.dfy` | `Pipeline` | properties of the whole chain, on the authored data |

Arithmetic is over `real`, not IEEE doubles, so the model does not capture
floating-point rounding.

Three facts about the code shape the model:

- **Section number.** `currentSection` is capped at 10, from above only
  (app/page.tsx:25), while the scene has `NUM_SECTIONS = 8`
  (app/components/ThreeScene.tsx:49).
- **Progress.** The progress ratio is not clamped (app/page.tsx:21). A
  `scrollTop` beyond the scroll range gives a ratio above 1.
- **Section coordinate.** The coordinate of app/components/ThreeScene.tsx:112
  always equals `scrollProgress * 8`, whatever section number the page reports
  (`SectionCoordinate`). So it spans [0, 8] over the whole document, and the
  section number, with its cap, has no effect on it.

Nodes and materials:

- The scene graph is the array of nodes in the order `scene.traverse` visits
  them.
- Materials are objects, and two meshes may share one.
- The traversal's postcondition gives each material the value written by the
  last mesh that uses it. Its `transparent` flag is set if any of those meshes
  came out below 1, and is never cleared.

## Model

| member | source | states |
|---|---|---|
| Geometry.Clamp | app/components/ThreeScene.tsx:18 | `MathUtils.clamp`: in range for `lo <= hi`; identity inside; `lo` below; `hi` above |
| Geometry.LerpScalarFacts | app/components/ThreeScene.tsx:176 | `MathUtils.lerp` stays between its ends for t in [0,1]; gives the first end at t = 0 and the second at t = 1; gives the common value when the ends agree |
| Geometry.LerpVec | app/components/ThreeScene.tsx:22 | `Vector3.lerp` stays in the box spanned by its ends for t in [0,1]; hits the ends at t = 0 and t = 1; leaves an offset to the second end of (1 - t) times the initial offset |
| ScrollMapper.Progress | app/page.tsx:20-21 | no overflow gives 0, with no division; otherwise progress times `maxScroll` is `scrollTop`; in [0,1] while `scrollTop` is within the range |
| ScrollMapper.CurrentSection | app/page.tsx:24-25 | never above 10; below the cap, the section's band of `clientHeight` contains `scrollTop`; at the cap, `scrollTop` is at least 10 screens down; non-negative for non-negative `scrollTop` |
| ScrollMapper.HandleScroll | app/page.tsx:20-25 | both outputs of the handler: section at most 10; progress 0 without overflow; progress in [0,1] and section at least 0 within the range |
| ScrollMapper.ProgressEndpoints | app/page.tsx:20-21 | progress is 0 at the top and 1 at `scrollTop = maxScroll` |
| ScrollMapper.SectionIsFloor | app/page.tsx:24-25 | the section is `floor(scrollTop / clientHeight)` whenever that is at most 10 |
| ScrollMapper.SectionMonotone | app/page.tsx:24-25 | the section never decreases as `scrollTop` grows |
| Sections.SectionCoordinate | app/components/ThreeScene.tsx:112 | the coordinate equals `scrollProgress * 8` for every section number; it lies in [0, 8] for progress in [0,1] |
| Sections.SelectSegment | app/components/ThreeScene.tsx:15-18 | camera copy of the rule: t in [0,1]; `0 <= sectionIndex` and `nextIndex <= maxIndex`; for `0 <= maxIndex`, `sectionIndex <= maxIndex` and `sectionIndex <= nextIndex <= sectionIndex + 1`; with no keys (`maxIndex < 0`) the ends are 0 and `maxIndex`; below 0 pinned to index 0 with t = 0, and next index 1 when `1 <= maxIndex`; before `maxIndex` the next index is the following one, `sectionIndex + 1`; for `0 <= maxIndex`, at or past `maxIndex` both ends are `maxIndex`; inside the range index + t gives the coordinate back |
| Visibility.VisibilitySegment | app/components/ThreeScene.tsx:143-146 | visibility copy of the rule, over the lists' own index range: t in [0,1]; both ends name a list; before the last list the second end is the list that follows, otherwise both ends are the last list; with no lists the ends are 0 and -1 |
| Sections.SegmentAtKeyframe | app/components/ThreeScene.tsx:16-18 | at a whole-number coordinate k in range the segment starts at k with fraction 0 |
| CameraPath.CameraMaxIndex | app/components/ThreeScene.tsx:15 | the index range is that of the longer key list: at least each list's last index, and equal to one of them (-1 when both are empty) |
| CameraPath.SegmentKey | app/components/ThreeScene.tsx:20-21 | an index inside the list reads its entry; an index at or past the end reads the last entry; an empty list or a negative index reads the origin |
| CameraPath.TargetPosition | app/components/ThreeScene.tsx:15-22 | an empty position list gives the origin; otherwise the target lies between the two (fallback-resolved) keyframes of the segment |
| CameraPath.TargetAtKeyframe | app/components/ThreeScene.tsx:16-22 | at coordinate k the target is exactly keyframe k |
| CameraPath.TargetBelowRange | app/components/ThreeScene.tsx:16-22 | below 0 the target is the first keyframe |
| CameraPath.TargetAboveRange | app/components/ThreeScene.tsx:15-22 | at or past the last position keyframe the target is that keyframe, including the band up to a larger `maxIndex` set by a longer rotation list (the `Math.min(..., length - 1)` fallback) |
| CameraPath.TargetInsideRange | app/components/ThreeScene.tsx:15-22 | inside the range of the position keys, whatever the rotation count, the target is the lerp of keyframes `floor(s)` and `floor(s)+1` (the last standing in past the end) by the fractional part |
| CameraPath.TargetContinuousAtKeyframe | app/components/ThreeScene.tsx:16-22 | the end of segment k is the target at k + 1, so the path has no jump |
| CameraPath.DegreesRoundTrip | app/components/ThreeScene.tsx:86-88 | `radToDeg(degToRad(d)) == d` with `DEG2RAD = PI/180` |
| CameraPath.NormalizeKey | app/components/ThreeScene.tsx:81-91 | vector keys and radian keys are unchanged (an untagged key counts as radians); a degree key becomes the radian vector that reads back as the authored degrees |
| CameraPath.NormalizeRotationKeys | app/components/ThreeScene.tsx:80-93 | same length and order as the input; each entry is its key normalised |
| CameraPath.Approach | app/components/ThreeScene.tsx:37 | one `lerp(target, 0.1)` step leaves 0.9 of the offset to the target; it never overshoots; a camera at the target stays there |
| CameraPath.SettleDistance | app/components/ThreeScene.tsx:37 | after n frames towards a fixed target, the offset is 0.9^n of the initial one |
| CameraPath.CameraController.constructor | app/components/ThreeScene.tsx:8-9 | the key lists as given; the target ref starts at (5.58, 3.7, 1.01) |
| CameraPath.CameraController.Frame | app/components/ThreeScene.tsx:13-37 | the target ref becomes the target position for the coordinate; the camera moves one smoothing step towards it (0.9 of the offset remains); nothing else changes |
| Visibility.ExactNamesMembers | app/components/ThreeScene.tsx:151 | the exact-name set holds exactly the names of the list's string entries |
| Visibility.PatternsAccept | app/components/ThreeScene.tsx:152 | testing the split-off patterns accepts exactly when some pattern entry of the list accepts |
| Visibility.SplitEmptyIffEmpty | app/components/ThreeScene.tsx:151-157 | the exact-name set and the pattern list are both empty exactly when the whole list is |
| Visibility.RulesOf | app/components/ThreeScene.tsx:151-157 | the split of one list: `useVisibility` holds exactly when the list is non-empty, so the empty list is the show-all sentinel |
| Visibility.IsVisible | app/components/ThreeScene.tsx:164-166 | both directions: the resolver shows a name exactly when the list is empty or some entry (exact name or pattern) accepts it |
| Visibility.BlendOpacity | app/components/ThreeScene.tsx:167-176 | the blend is in [0.15, 1] for t in [0,1]; it is side A's opacity at t = 0 or when the sides agree; it is 1 exactly when no weighted side hides the mesh |
| Visibility.MeshOpacity | app/components/ThreeScene.tsx:143-176 | in [0.15, 1]; equals the blend, by the segment fraction, of the entry-by-entry rule's verdict on the segment's two lists (missing lists read as empty) |
| Visibility.Opacities | app/components/ThreeScene.tsx:159-176 | the opacity computed for each node is that node's `MeshOpacity`, an unnamed node being tested as `""` |
| Visibility.LastWriterKeepsOpacity | app/components/ThreeScene.tsx:179 | a mesh that no later mesh overwrites leaves its own opacity in its material |
| Visibility.WrittenOpacityIsComputed | app/components/ThreeScene.tsx:179 | a written material holds the opacity computed for one of its meshes |
| Visibility.WrittenTransparentIffDimmed | app/components/ThreeScene.tsx:178 | both directions: `transparent` ends up true exactly when it was true before or some mesh using the material came out below 1 |
| Visibility.TraversalOutcome | app/components/ThreeScene.tsx:159-181 | after the traversal: the last writer's `MeshOpacity` is kept; opacity is in [0.15, 1]; `transparent` is on iff it was on before or the material is dimmed |
| Visibility.Traverse | app/components/ThreeScene.tsx:159-181 | the loop leaves each mesh material's opacity and flag as the last-writer functions say; only mesh materials can change (non-mesh nodes untouched) |
| Visibility.ApplyVisibility | app/components/ThreeScene.tsx:142-183 | the memoised body: the segment, the split lists, then the traversal, with the outcome stated over the section's opacities |
| SceneConfig.CameraPositionKeys | app/components/ThreeScene.tsx:53-64 | ten position keyframes, sections 8 and 9 repeating sections 0 and 1 |
| SceneConfig.CameraRotationKeys | app/components/ThreeScene.tsx:67-78 | ten rotation keys, all tagged `"deg"` with zero roll, sections 8 and 9 repeating sections 0 and 1 |
| SceneConfig.VisibleNodesBySection | app/components/ThreeScene.tsx:98-110 | ten lists; exactly sections 0-2, 8 and 9 are empty (show all); only sections 5 and 6 hold patterns |
| Pipeline.CoordinateOf | app/page.tsx:20-25 | the coordinate the scene derives from a reading: 0 without overflow; otherwise coordinate times `maxScroll` is `8 * scrollTop`; in [0, 8] while `scrollTop` is within range |
| Pipeline.ReachableTargetsInterpolate | app/components/ThreeScene.tsx:112 | every scroll position in range maps into [0, 8]; with the ten authored keyframes the target is the lerp of keyframes `floor(s)` and `floor(s)+1` |
| Pipeline.HalfwayScenario | app/page.tsx:20-25 | scroll 250 of 1000 with a 500-pixel viewport: progress 0.5, section 0, coordinate 4, target = keyframe 4 |
| Pipeline.TopScenario | app/components/ThreeScene.tsx:53-54 | at the top the coordinate is 0 and the target is keyframe 0 |
| Pipeline.OpeningSectionsShowAll | app/components/ThreeScene.tsx:98-101 | up to coordinate 2 every mesh is fully opaque, since sections 0 to 2 have empty lists |
| Pipeline.SidesAtMidpoint | app/components/ThreeScene.tsx:143-146 | with ten lists, coordinate k + 0.5 blends lists k and k + 1 at fraction 0.5 |
| Pipeline.Node194Sides | app/components/ThreeScene.tsx:102-104 | `node194` is hidden by section 3's list and shown by section 4's |
| Pipeline.SidesTwoAndThree | app/components/ThreeScene.tsx:101-102 | section 2 shows everything; section 3 shows `node89` but not an unnamed mesh |
| Pipeline.CrossFadeScenario | app/components/ThreeScene.tsx:159-176 | at 3.5 `node194` is at 0.575; at 2.5 `node89` stays at 1 and an unnamed mesh is at 0.575 |

## Left out

- Orientation: Euler-to-quaternion conversion and quaternion slerp, both for the target (app/components/ThreeScene.tsx:24-30, 33) and for the camera (line 38). These are trigonometric library calls. The rotation keys enter the model only through their count, which fixes the camera's index range, and through their unit conversion.
- CameraPath.CameraController.Frame: does not model `targetQuat` or the camera's quaternion, for the reason above.
- `CameraReporter` (app/components/ThreeScene.tsx:117-136): a debug read-out built on the same trigonometry.
- Regular-expression matching: a pattern entry is the abstract test it performs on a name, so the patterns of sections 5 and 6 are parameters of `SceneConfig.VisibleNodesBySection`. Because of this the model does not capture the state a global-flag regular expression carries between `test` calls.
- Rendering and loading: GLTF loading and preloading, the canvas, lights, orbit controls, helpers and the HUD formatting. These are rendering, UI and I/O.
- React plumbing: `useMemo`, `useRef` and `useState`, memoisation and dependency tracking. The model recomputes each derived value where it is used.
- The unused `sectionKey` (app/components/ThreeScene.tsx:113).
- Page glue: querying the container, subscribing to scroll events and setting React state (app/page.tsx:11-18, 26-38), and all markup.
- Floating point: arithmetic is over the reals. `PI` is the decimal `3.141592653589793`. Rounding, and the `Infinity`/`NaN` that `clientHeight = 0` would produce, are not modelled.
- ScrollMapper.CurrentSection: requires `clientHeight > 0`; the source divides by it unguarded.
- ScrollMapper.HandleScroll: requires `clientHeight > 0`, for the same reason.
- The scene graph is a flat array in traversal order. The parent/child structure is not modelled.
- Visibility.Traverse: assumes mesh names and the `isMesh`/`material` links are fixed during the traversal; only materials are mutable.
