/**
 * Per-mesh visibility in `GLTFModel` (app/components/ThreeScene.tsx, lines
 * 143-180): each side of the current segment has a list of matchers; a mesh is
 * fully opaque on a side it is visible on and dimmed on the other, the two
 * opacities are blended by the segment fraction, and the result is written into
 * the mesh's material.
 */
module Visibility {
  import opened Options
  import opened Geometry
  import opened Sections

  /**
   * A visibility entry: an exact mesh name, or a regular expression. The regular
   * expression is kept abstract as the test it performs on a name.
   */
  datatype Matcher = Exact(name: string) | Pattern(test: string -> bool)

  /** The opacity of a mesh on a side where it is not listed. */
  const DIMMED: real := 0.15

  // ---------------------------------------------------------------------------
  // The reference rule, one entry at a time

  predicate Accepts(m: Matcher, name: string) {
    match m
    case Exact(n) => n == name
    case Pattern(test) => test(name)
  }

  /** An empty list shows every mesh; otherwise some entry must accept the name. */
  predicate VisibleByRule(list: seq<Matcher>, name: string) {
    list == [] || exists i :: 0 <= i < |list| && Accepts(list[i], name)
  }

  // ---------------------------------------------------------------------------
  // The resolver as the scene computes it: split each list once, then test names

  /** `new Set(list.filter(v => typeof v === "string"))`. */
  function ExactNames(list: seq<Matcher>): set<string> {
    if list == [] then {}
    else if list[0].Exact? then {list[0].name} + ExactNames(list[1..])
    else ExactNames(list[1..])
  }

  /** `list.filter(v => v instanceof RegExp)`, each regular expression as its test. */
  function Patterns(list: seq<Matcher>): seq<string -> bool> {
    if list == [] then []
    else if list[0].Pattern? then [list[0].test] + Patterns(list[1..])
    else Patterns(list[1..])
  }

  /** `regexList.some(re => re.test(name))`. */
  function AnyTest(tests: seq<string -> bool>, name: string): bool {
    if tests == [] then false else tests[0](name) || AnyTest(tests[1..], name)
  }

  /** The exact-name set holds precisely the names of the list's exact entries. */
  lemma {:induction false} ExactNamesMembers(list: seq<Matcher>, n: string)
    ensures n in ExactNames(list) <==> exists i :: 0 <= i < |list| && list[i].Exact? && list[i].name == n
  {
    if list != [] {
      ExactNamesMembers(list[1..], n);
      assert forall i :: 1 <= i < |list| ==> list[i] == list[1..][i - 1];
      if exists i :: 0 <= i < |list| && list[i].Exact? && list[i].name == n {
        var i :| 0 <= i < |list| && list[i].Exact? && list[i].name == n;
        if i > 0 {
          assert list[1..][i - 1].Exact? && list[1..][i - 1].name == n;
        }
      }
    }
  }

  /** Splitting off the patterns keeps exactly the pattern entries' verdicts. */
  lemma {:induction false} PatternsAccept(list: seq<Matcher>, name: string)
    ensures AnyTest(Patterns(list), name) <==>
            exists i :: 0 <= i < |list| && list[i].Pattern? && list[i].test(name)
  {
    if list != [] {
      PatternsAccept(list[1..], name);
      assert forall i :: 1 <= i < |list| ==> list[i] == list[1..][i - 1];
      if list[0].Pattern? {
        assert Patterns(list) == [list[0].test] + Patterns(list[1..]);
      }
      if exists i :: 0 <= i < |list| && list[i].Pattern? && list[i].test(name) {
        var i :| 0 <= i < |list| && list[i].Pattern? && list[i].test(name);
        if i > 0 {
          assert list[1..][i - 1].Pattern? && list[1..][i - 1].test(name);
        }
      }
    }
  }

  /** One side's list, split once before the traversal as the scene does. */
  datatype SideRules = SideRules(useRules: bool, exact: set<string>, tests: seq<string -> bool>) {
    /** `useVisibility ? (exactNames.has(name) || regexList.some(...)) : true`. */
    predicate Admits(name: string) {
      if useRules then name in exact || AnyTest(tests, name) else true
    }
  }

  /** The split lists are both empty exactly when the whole list is. */
  lemma {:induction false} SplitEmptyIffEmpty(list: seq<Matcher>)
    ensures (|ExactNames(list)| > 0 || |Patterns(list)| > 0) <==> list != []
  {
    if list != [] {
      if list[0].Exact? {
        ExactNamesMembers(list, list[0].name);
      } else {
        assert Patterns(list) == [list[0].test] + Patterns(list[1..]);
      }
    }
  }

  /**
   * The split of one list, with `useVisibility = exactNames.size > 0 ||
   * regexList.length > 0`: the rules are in use exactly when the list is
   * non-empty, so the empty list is the show-all sentinel.
   */
  function RulesOf(list: seq<Matcher>): (r: SideRules)
    ensures r.useRules <==> list != []
  {
    SplitEmptyIffEmpty(list);
    var exact := ExactNames(list);
    var tests := Patterns(list);
    SideRules(|exact| > 0 || |tests| > 0, exact, tests)
  }

  /**
   * The resolver applied to one side's list. It agrees, in both directions,
   * with the entry-by-entry rule: an empty list shows every name, a non-empty
   * one shows the names some entry accepts.
   */
  predicate IsVisible(list: seq<Matcher>, name: string)
    ensures IsVisible(list, name) <==> VisibleByRule(list, name)
  {
    ExactNamesMembers(list, name);
    PatternsAccept(list, name);
    RulesOf(list).Admits(name)
  }

  // ---------------------------------------------------------------------------
  // Opacity

  /** `isVisible ? 1 : 0.15`. */
  function SideOpacity(visible: bool): real {
    if visible then 1.0 else DIMMED
  }

  /**
   * `MathUtils.lerp(opacityA, opacityB, t)` over the two sides' opacities. For
   * a fraction in [0, 1] the blend never leaves [0.15, 1]; it is the first
   * side's opacity when the fraction is 0 or when the sides agree; it is 1
   * exactly when no side that carries weight hides the mesh.
   */
  function BlendOpacity(visibleA: bool, visibleB: bool, t: real): (o: real)
    ensures 0.0 <= t <= 1.0 ==> DIMMED <= o <= 1.0
    ensures t == 0.0 || visibleA == visibleB ==> o == SideOpacity(visibleA)
    ensures 0.0 <= t <= 1.0 ==>
              (o == 1.0 <==> (visibleA && visibleB) || (visibleA && t == 0.0) || (visibleB && t == 1.0))
  {
    var opacityA := SideOpacity(visibleA);
    var opacityB := SideOpacity(visibleB);
    LerpScalarFacts(opacityA, opacityB, t);
    LerpScalar(opacityA, opacityB, t)
  }

  /** The opacity of a mesh called `name`, from the two sides' split lists and the fraction. */
  function OpacityWith(rulesA: SideRules, rulesB: SideRules, t: real, name: string): real {
    BlendOpacity(rulesA.Admits(name), rulesB.Admits(name), t)
  }

  /** `visibleNodesBySection[i] || []`: a section past the end of the list has no rules. */
  function ListAt(spec: seq<seq<Matcher>>, i: int): seq<Matcher> {
    if 0 <= i < |spec| then spec[i] else []
  }

  /** `child.name || ""`: an unnamed mesh is tested as the empty name. */
  function MeshName(name: Option<string>): string {
    if name.Some? then name.value else ""
  }

  /**
   * The segment the visibility lists are read with: its index range is the
   * lists' own, so both ends name a list unless there are none, when the
   * second end is -1 and reads as the empty list; before the last list the
   * second end is the list that follows.
   */
  function VisibilitySegment(spec: seq<seq<Matcher>>, section: real): (g: Segment)
    ensures 0.0 <= g.t <= 1.0
    ensures spec != [] ==> 0 <= g.sectionIndex <= g.nextIndex < |spec| && g.nextIndex <= g.sectionIndex + 1
    ensures spec == [] ==> g.sectionIndex == 0 && g.nextIndex == -1
    ensures g.sectionIndex < |spec| - 1 ==> g.nextIndex == g.sectionIndex + 1
  {
    SelectSegment(section, |spec| - 1)
  }

  /**
   * A mesh's opacity at a section coordinate: within [0.15, 1], and the blend,
   * by the segment fraction, of whether the entry-by-entry rule shows it on the
   * segment's two lists (a missing list reading as empty).
   */
  function MeshOpacity(spec: seq<seq<Matcher>>, section: real, name: string): (o: real)
    ensures DIMMED <= o <= 1.0
    ensures var g := VisibilitySegment(spec, section);
            o == BlendOpacity(VisibleByRule(ListAt(spec, g.sectionIndex), name),
                              VisibleByRule(ListAt(spec, g.nextIndex), name), g.t)
  {
    var g := VisibilitySegment(spec, section);
    var listA := ListAt(spec, g.sectionIndex);
    var listB := ListAt(spec, g.nextIndex);
    assert IsVisible(listA, name) == VisibleByRule(listA, name);
    assert IsVisible(listB, name) == VisibleByRule(listB, name);
    OpacityWith(RulesOf(listA), RulesOf(listB), g.t, name)
  }

  // ---------------------------------------------------------------------------
  // Writing into the scene graph

  /** A mesh material; the resolver writes only these two fields. */
  class Material {
    var opacity: real
    var transparent: bool

    constructor (opacity: real, transparent: bool)
      ensures this.opacity == opacity && this.transparent == transparent
    {
      this.opacity := opacity;
      this.transparent := transparent;
    }
  }

  /** A node of the loaded scene, as `scene.traverse` visits it. */
  class SceneNode {
    const isMesh: bool
    const name: Option<string>
    const material: Material?

    constructor (isMesh: bool, name: Option<string>, material: Material?)
      ensures this.isMesh == isMesh && this.name == name && this.material == material
    {
      this.isMesh := isMesh;
      this.name := name;
      this.material := material;
    }
  }

  /** `child.isMesh && child.material`: the nodes whose material is written. */
  predicate Writes(n: SceneNode) {
    n.isMesh && n.material != null
  }

  /** The materials of the mesh nodes: what the traversal may change. */
  function MeshMaterials(nodes: seq<SceneNode>): set<Material> {
    set j | 0 <= j < |nodes| && Writes(nodes[j]) :: nodes[j].material
  }

  /** Node `j` is the last among the first `upto` nodes to write its material. */
  predicate LastWriterBefore(nodes: seq<SceneNode>, j: int, upto: int)
    requires 0 <= j < |nodes| && upto <= |nodes|
  {
    forall k :: j < k < upto && Writes(nodes[k]) ==> nodes[k].material != nodes[j].material
  }

  /** The opacity computed for each node, in traversal order, from the split lists. */
  function OpacitiesWith(nodes: seq<SceneNode>, rulesA: SideRules, rulesB: SideRules, t: real): (ops: seq<real>)
    ensures |ops| == |nodes|
  {
    seq(|nodes|, k requires 0 <= k < |nodes| => OpacityWith(rulesA, rulesB, t, MeshName(nodes[k].name)))
  }

  /** The opacity computed for each node at a section coordinate. */
  function Opacities(nodes: seq<SceneNode>, spec: seq<seq<Matcher>>, section: real): (ops: seq<real>)
    ensures |ops| == |nodes|
    ensures forall k :: 0 <= k < |nodes| ==> ops[k] == MeshOpacity(spec, section, MeshName(nodes[k].name))
  {
    var g := VisibilitySegment(spec, section);
    OpacitiesWith(nodes, RulesOf(ListAt(spec, g.sectionIndex)), RulesOf(ListAt(spec, g.nextIndex)), g.t)
  }

  /** The materials of the meshes whose computed opacity is below 1. */
  function DimmedMaterials(nodes: seq<SceneNode>, ops: seq<real>): set<Material>
    requires |ops| == |nodes|
  {
    set j | 0 <= j < |nodes| && Writes(nodes[j]) && ops[j] < 1.0 :: nodes[j].material
  }

  /**
   * The opacity material `m` holds after the traversal has visited the first
   * `upto` nodes, having held `before`: that of the last mesh visited that uses
   * it. `ops[k]` is the opacity computed for node `k`.
   */
  function WrittenOpacity(nodes: seq<SceneNode>, ops: seq<real>, m: Material, upto: int, before: real): real
    requires 0 <= upto <= |nodes| == |ops|
    decreases upto
  {
    if upto == 0 then before
    else if Writes(nodes[upto - 1]) && nodes[upto - 1].material == m then ops[upto - 1]
    else WrittenOpacity(nodes, ops, m, upto - 1, before)
  }

  /** The transparency flag of material `m` after the first `upto` nodes, having been `before`. */
  function WrittenTransparent(nodes: seq<SceneNode>, ops: seq<real>, m: Material, upto: int, before: bool): bool
    requires 0 <= upto <= |nodes| == |ops|
    decreases upto
  {
    if upto == 0 then before
    else
      var written := Writes(nodes[upto - 1]) && nodes[upto - 1].material == m;
      (written && ops[upto - 1] < 1.0) || WrittenTransparent(nodes, ops, m, upto - 1, before)
  }

  /** A mesh that no later mesh overwrites leaves its own opacity in its material. */
  lemma {:induction false} LastWriterKeepsOpacity(nodes: seq<SceneNode>, ops: seq<real>, j: int, upto: int, before: real)
    requires 0 <= j < upto <= |nodes| == |ops| && Writes(nodes[j]) && LastWriterBefore(nodes, j, upto)
    ensures WrittenOpacity(nodes, ops, nodes[j].material, upto, before) == ops[j]
  {
    if upto - 1 > j {
      LastWriterKeepsOpacity(nodes, ops, j, upto - 1, before);
    }
  }

  /** Once some mesh has written a material, it holds the opacity computed for one of its meshes. */
  lemma {:induction false} WrittenOpacityIsComputed(nodes: seq<SceneNode>, ops: seq<real>, j: int, upto: int, before: real)
    requires 0 <= j < upto <= |nodes| == |ops| && Writes(nodes[j])
    ensures exists k :: j <= k < upto && Writes(nodes[k]) && nodes[k].material == nodes[j].material &&
                        WrittenOpacity(nodes, ops, nodes[j].material, upto, before) == ops[k]
  {
    if Writes(nodes[upto - 1]) && nodes[upto - 1].material == nodes[j].material {
      assert WrittenOpacity(nodes, ops, nodes[j].material, upto, before) == ops[upto - 1];
    } else {
      WrittenOpacityIsComputed(nodes, ops, j, upto - 1, before);
    }
  }

  /** The flag ends up set exactly when it was set before or some mesh using the material was dimmed. */
  lemma {:induction false} WrittenTransparentIffDimmed(nodes: seq<SceneNode>, ops: seq<real>, m: Material, upto: int, before: bool)
    requires 0 <= upto <= |nodes| == |ops|
    ensures WrittenTransparent(nodes, ops, m, upto, before) <==>
            before || exists k :: 0 <= k < upto && Writes(nodes[k]) && nodes[k].material == m && ops[k] < 1.0
  {
    if upto > 0 {
      WrittenTransparentIffDimmed(nodes, ops, m, upto - 1, before);
    }
  }

  /**
   * What the traversal leaves in a mesh's material at a section coordinate: the
   * last mesh visited that uses the material leaves its own opacity, the opacity
   * is always in [0.15, 1], and the transparency flag is on exactly when it was
   * on before or some mesh using the material comes out below 1.
   */
  lemma TraversalOutcome(nodes: seq<SceneNode>, j: int, spec: seq<seq<Matcher>>, section: real,
                         opacityBefore: real, transparentBefore: bool)
    requires 0 <= j < |nodes| && Writes(nodes[j])
    ensures var ops := Opacities(nodes, spec, section);
            var m := nodes[j].material;
            (LastWriterBefore(nodes, j, |nodes|) ==>
               WrittenOpacity(nodes, ops, m, |nodes|, opacityBefore) == MeshOpacity(spec, section, MeshName(nodes[j].name))) &&
            DIMMED <= WrittenOpacity(nodes, ops, m, |nodes|, opacityBefore) <= 1.0 &&
            (WrittenTransparent(nodes, ops, m, |nodes|, transparentBefore) <==>
               transparentBefore || m in DimmedMaterials(nodes, ops))
  {
    var ops := Opacities(nodes, spec, section);
    var m := nodes[j].material;
    if LastWriterBefore(nodes, j, |nodes|) {
      LastWriterKeepsOpacity(nodes, ops, j, |nodes|, opacityBefore);
    }
    WrittenOpacityIsComputed(nodes, ops, j, |nodes|, opacityBefore);
    WrittenTransparentIffDimmed(nodes, ops, m, |nodes|, transparentBefore);
  }

  /**
   * `scene.traverse(...)`: visit the nodes in order; a mesh with a material gets
   * its blended opacity and has `transparent` switched on when that opacity is
   * below 1 (never off); any other node is left alone. Each mesh material ends
   * up as `WrittenOpacity` and `WrittenTransparent` say; the modifies clause
   * keeps every other object, and every other field, unchanged.
   */
  method Traverse(nodes: array<SceneNode>, rulesA: SideRules, rulesB: SideRules, t: real)
    modifies MeshMaterials(nodes[..])
    ensures var ops := OpacitiesWith(nodes[..], rulesA, rulesB, t);
            forall j :: 0 <= j < nodes.Length && Writes(nodes[j]) ==>
              nodes[j].material.opacity ==
                WrittenOpacity(nodes[..], ops, nodes[j].material, nodes.Length, old(nodes[j].material.opacity)) &&
              nodes[j].material.transparent ==
                WrittenTransparent(nodes[..], ops, nodes[j].material, nodes.Length, old(nodes[j].material.transparent))
  {
    ghost var s := nodes[..];
    ghost var ops := OpacitiesWith(s, rulesA, rulesB, t);
    var i := 0;
    while i < nodes.Length
      invariant 0 <= i <= nodes.Length
      invariant forall j :: 0 <= j < |s| && Writes(s[j]) ==>
                  s[j].material.opacity == WrittenOpacity(s, ops, s[j].material, i, old(s[j].material.opacity))
      invariant forall j :: 0 <= j < |s| && Writes(s[j]) ==>
                  s[j].material.transparent == WrittenTransparent(s, ops, s[j].material, i, old(s[j].material.transparent))
    {
      var child := nodes[i];
      if child.isMesh && child.material != null {
        var meshName := MeshName(child.name);
        var opacity := OpacityWith(rulesA, rulesB, t, meshName);
        child.material.transparent := opacity < 1.0 || child.material.transparent;
        child.material.opacity := opacity;
        forall j | 0 <= j < |s| && Writes(s[j])
          ensures s[j].material.opacity == WrittenOpacity(s, ops, s[j].material, i + 1, old(s[j].material.opacity))
          ensures s[j].material.transparent == WrittenTransparent(s, ops, s[j].material, i + 1, old(s[j].material.transparent))
        {
          if s[j].material != child.material {
            assert WrittenOpacity(s, ops, s[j].material, i + 1, old(s[j].material.opacity))
                == WrittenOpacity(s, ops, s[j].material, i, old(s[j].material.opacity));
          }
        }
      }
      i := i + 1;
    }
  }

  /**
   * The memoised body of `GLTFModel` (lines 143-181): find the segment, split
   * both sides' lists once, then traverse the scene. Each mesh material ends up
   * as `WrittenOpacity`/`WrittenTransparent` say over the opacities computed at
   * `section` (see `TraversalOutcome`).
   */
  method ApplyVisibility(nodes: array<SceneNode>, spec: seq<seq<Matcher>>, section: real)
    modifies MeshMaterials(nodes[..])
    ensures var ops := Opacities(nodes[..], spec, section);
            forall j :: 0 <= j < nodes.Length && Writes(nodes[j]) ==>
              nodes[j].material.opacity ==
                WrittenOpacity(nodes[..], ops, nodes[j].material, nodes.Length, old(nodes[j].material.opacity)) &&
              nodes[j].material.transparent ==
                WrittenTransparent(nodes[..], ops, nodes[j].material, nodes.Length, old(nodes[j].material.transparent))
  {
    var g := VisibilitySegment(spec, section);
    var rulesA := RulesOf(ListAt(spec, g.sectionIndex));
    var rulesB := RulesOf(ListAt(spec, g.nextIndex));
    Traverse(nodes, rulesA, rulesB, g.t);
  }
}
