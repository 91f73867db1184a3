/** What is drawn: exactly the stages in sight, each with its own caption and status, and two rails for each block. */
module Captions {
  import opened Layout
  import opened Options

  /** What a box shows, but for where it stands. A stage has a box of one size, a rail one width. */
  datatype Face =
    | StageFace(caption: string, status: string, w: int, h: int)
    | RailFace(variant: Variant, branches: nat, w: int)
    | GroupFace(caption: string, status: string, collapsed: bool)

  function FaceOf(n: Node): Face {
    match n.data
    case StageData(caption, status) => StageFace(caption, status, n.w, n.h)
    case RailData(variant, centers) => RailFace(variant, |centers|, n.w)
    case GroupData(caption, status, isCollapsed) => GroupFace(caption, status, isCollapsed)
  }

  predicate HasBox(nodes: seq<Node>, box: string, face: Face) {
    exists n | n in nodes :: n.id == box && FaceOf(n) == face
  }

  function Given(text: string, fallback: string): string {
    if text == "" then fallback else text
  }

  /** A box of that id and face is in sight of a stage: its own, a rail of its block, or one of a stage inside it. */
  predicate InSight(s: Stage, id: string, collapsed: set<string>, box: string, face: Face)
    decreases s
  {
    if s.kind == "PARALLEL_BLOCK" && s.parallelStages != [] then
      || (box == id + "/split" && face == RailFace(Split, |s.parallelStages|, 4))
      || (box == id + "/merge" && face == RailFace(Merge, |s.parallelStages|, 4))
      || AnyInSight(s.parallelStages, id, collapsed, box, face)
    else if s.kind == "ATLAS_PIPELINE_TRIGGER" && s.nestedPipeline.Some? then
      var nested := s.nestedPipeline.value;
      || (box == id
          && face == GroupFace(Given(nested.name, s.name), Given(nested.status, s.status), id in collapsed))
      || (id !in collapsed && AnyInSight(nested.stages, id + "/nested", collapsed, box, face))
    else box == id && face == StageFace(s.name, s.status, 168, 44)
  }

  predicate AnyInSight(stages: seq<Stage>, path: string, collapsed: set<string>, box: string, face: Face)
    decreases stages
  {
    exists i | 0 <= i < |stages| :: InSight(stages[i], path + "/" + stages[i].id, collapsed, box, face)
  }

  // ---------- lists of boxes

  lemma {:induction false} HasBoxJoin(a: seq<Node>, b: seq<Node>, box: string, face: Face)
    ensures HasBox(a + b, box, face) <==> HasBox(a, box, face) || HasBox(b, box, face)
  {
    hide FaceOf;
  }

  lemma {:induction false} HasBoxOne(n: Node, box: string, face: Face)
    ensures HasBox([n], box, face) <==> n.id == box && FaceOf(n) == face
    ensures !HasBox([], box, face)
  {
    hide FaceOf;
    assert n in [n];
  }

  lemma {:induction false} OneMore(
    stages: seq<Stage>, n: nat, path: string, collapsed: set<string>, box: string, face: Face)
    requires 0 < n <= |stages|
    ensures AnyInSight(stages[..n], path, collapsed, box, face) <==>
            || AnyInSight(stages[..n - 1], path, collapsed, box, face)
            || InSight(stages[n - 1], path + "/" + stages[n - 1].id, collapsed, box, face)
  {
    hide InSight;
    var some, fewer := stages[..n], stages[..n - 1];
    assert forall i | 0 <= i < n - 1 :: some[i] == fewer[i];
    assert some[n - 1] == stages[n - 1];
  }

  // ---------- each part of a drawing

  lemma {:induction false} StageInSight(
    s: Stage, id: string, x: int, y: int, parent: Option<string>, collapsed: set<string>, box: string, face: Face)
    ensures HasBox(LayoutStage(s, id, x, y, parent, collapsed).nodes, box, face) <==>
            InSight(s, id, collapsed, box, face)
    decreases s, 2
  {
    hide HasBox;
    if IsParallel(s) {
      BlockInSight(s, id, x, y, parent, collapsed, box, face);
    } else if IsNested(s) {
      GroupInSight(s, id, x, y, parent, collapsed, box, face);
    } else {
      HasBoxOne(LayoutLeaf(s, id, x, y, parent).nodes[0], box, face);
    }
  }

  lemma {:induction false} GroupInSight(
    s: Stage, id: string, x: int, y: int, parent: Option<string>, collapsed: set<string>, box: string, face: Face)
    requires IsNested(s)
    ensures HasBox(LayoutNestedPipeline(s, id, x, y, parent, collapsed).nodes, box, face) <==>
            InSight(s, id, collapsed, box, face)
    decreases s, 1
  {
    hide HasBox, LayoutStages;
    var nodes, stages := LayoutNestedPipeline(s, id, x, y, parent, collapsed).nodes, s.nestedPipeline.value.stages;
    HasBoxOne(nodes[0], box, face);
    if IsOpen(s, id, collapsed) {
      var inner := LayoutStages(stages, NestedPath(id), GROUP_PAD, HEADER_H + GROUP_PAD, Some(id), collapsed);
      ListInSight(stages, NestedPath(id), GROUP_PAD, HEADER_H + GROUP_PAD, Some(id), collapsed, box, face);
      HasBoxJoin([nodes[0]], inner.nodes, box, face);
    }
  }

  lemma {:induction false} BlockInSight(
    s: Stage, id: string, x: int, y: int, parent: Option<string>, collapsed: set<string>, box: string, face: Face)
    requires IsParallel(s)
    ensures HasBox(LayoutParallelBlock(s, id, x, y, parent, collapsed).nodes, box, face) <==>
            InSight(s, id, collapsed, box, face)
    decreases s, 1
  {
    hide HasBox, BranchesUpTo;
    var stages, childX := s.parallelStages, x + RAIL_GAP + RAIL_W;
    var nodes := LayoutParallelBlock(s, id, x, y, parent, collapsed).nodes;
    var b := BranchesUpTo(stages, |stages|, id, childX, y, parent, collapsed);
    BranchesInSight(stages, |stages|, id, childX, y, parent, collapsed, box, face);
    assert stages[..|stages|] == stages;
    var split, merge := nodes[|b.nodes|], nodes[|b.nodes| + 1];
    assert nodes == b.nodes + ([split] + [merge]);
    HasBoxJoin(b.nodes, [split] + [merge], box, face);
    HasBoxJoin([split], [merge], box, face);
    HasBoxOne(split, box, face);
    HasBoxOne(merge, box, face);
  }

  lemma {:induction false} BranchesInSight(
    stages: seq<Stage>, n: nat, prefix: string, childX: int, y: int, parent: Option<string>, collapsed: set<string>,
    box: string, face: Face)
    requires n <= |stages|
    ensures var b := BranchesUpTo(stages, n, prefix, childX, y, parent, collapsed);
            && |b.centers| == n
            && (HasBox(b.nodes, box, face) <==> AnyInSight(stages[..n], prefix, collapsed, box, face))
    decreases stages, 0, n
  {
    hide HasBox, LayoutStage, AnyInSight, InSight;
    if n == 0 {
      Nothing(stages, prefix, collapsed, box, face);
    } else {
      var acc, id := BranchesUpTo(stages, n - 1, prefix, childX, y, parent, collapsed), Child(prefix, stages[n - 1].id);
      var placed := LayoutStage(stages[n - 1], id, childX, acc.nextY, parent, collapsed);
      BranchesInSight(stages, n - 1, prefix, childX, y, parent, collapsed, box, face);
      StageInSight(stages[n - 1], id, childX, acc.nextY, parent, collapsed, box, face);
      HasBoxJoin(acc.nodes, placed.nodes, box, face);
      OneMore(stages, n, prefix, collapsed, box, face);
    }
  }

  lemma {:induction false} Nothing(
    stages: seq<Stage>, path: string, collapsed: set<string>, box: string, face: Face)
    ensures !HasBox([], box, face) && !AnyInSight(stages[..0], path, collapsed, box, face)
  {
  }

  lemma {:induction false} RowInSight(
    stages: seq<Stage>, n: nat, path: string, x: int, y: int, parent: Option<string>, collapsed: set<string>,
    box: string, face: Face)
    requires n <= |stages|
    ensures HasBox(RowUpTo(stages, n, path, x, y, parent, collapsed).nodes, box, face) <==>
            AnyInSight(stages[..n], path, collapsed, box, face)
    decreases stages, 0, n
  {
    hide HasBox, LayoutStage, AnyInSight, InSight, Connect;
    if n == 0 {
      Nothing(stages, path, collapsed, box, face);
    } else {
      var acc, id := RowUpTo(stages, n - 1, path, x, y, parent, collapsed), Child(path, stages[n - 1].id);
      var placed := LayoutStage(stages[n - 1], id, acc.nextX, y, parent, collapsed);
      RowInSight(stages, n - 1, path, x, y, parent, collapsed, box, face);
      StageInSight(stages[n - 1], id, acc.nextX, y, parent, collapsed, box, face);
      HasBoxJoin(acc.nodes, placed.nodes, box, face);
      OneMore(stages, n, path, collapsed, box, face);
    }
  }

  lemma {:induction false} ListInSight(
    stages: seq<Stage>, path: string, x: int, y: int, parent: Option<string>, collapsed: set<string>,
    box: string, face: Face)
    ensures HasBox(LayoutStages(stages, path, x, y, parent, collapsed).nodes, box, face) <==>
            AnyInSight(stages, path, collapsed, box, face)
    decreases stages, 1
  {
    hide HasBox, RowUpTo, AnyInSight;
    RowInSight(stages, |stages|, path, x, y, parent, collapsed, box, face);
    assert stages[..|stages|] == stages;
  }

  /**
   * For every report and collapsed set, whatever the ids: a box of that id and face is drawn exactly if it is in sight
   * of some stage of the report.
   */
  lemma {:induction false} DrawnExactlyIf(stages: seq<Stage>, collapsed: set<string>, box: string, face: Face)
    ensures HasBox(LayoutReport(stages, collapsed).nodes, box, face) <==>
            AnyInSight(stages, "root", collapsed, box, face)
  {
    hide HasBox, LayoutStages, InSight;
    if stages == [] {
      assert stages[..0] == stages;
      Nothing(stages, "root", collapsed, box, face);
    } else {
      ListInSight(stages, "root", ROOT_OFFSET, ROOT_OFFSET, None, collapsed, box, face);
    }
  }
}
