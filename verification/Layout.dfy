/** The pipeline viewer's layout: a stage tree becomes positioned boxes and edges.

    Each function below is what one call of the viewer's layout code returns; the methods of
    `LayoutEngine` compute the same results the way the viewer does, with loops that push into
    node and edge lists. A loop over siblings is specified by its state after `n` rounds. */
module Layout {
  import opened Options
  import opened Text

  const LEAF_W := 168
  const LEAF_H := 44
  const GAP_X := 72
  const GAP_Y := 16
  const GROUP_PAD := 20
  const HEADER_H := 32
  const MIN_GROUP_W := 140
  const RAIL_GAP := 56
  const RAIL_W := 4
  const ROOT_OFFSET := 24

  /** A stage of a report. An absent list of parallel stages is the empty list. */
  datatype Stage = Stage(
    id: string, name: string, kind: string, status: string,
    parallelStages: seq<Stage>, nestedPipeline: Option<Report>)

  datatype Report = Report(name: string, status: string, stages: seq<Stage>)

  datatype Variant = Split | Merge

  datatype NodeData =
    | StageData(caption: string, status: string)
    | RailData(variant: Variant, branchCenters: seq<int>)
    | GroupData(caption: string, status: string, collapsed: bool)

  /** A box. Its position is relative to the box named by `parent`, if any. */
  datatype Node = Node(id: string, x: int, y: int, w: int, h: int, parent: Option<string>, data: NodeData)

  /** An edge. An undefined handle is the empty string. */
  datatype Edge = Edge(source: string, target: string, sourceHandle: string, targetHandle: string) {
    function Id(): string {
      source + ":" + sourceHandle + "->" + target + ":" + targetHandle
    }
  }

  datatype Segment = Segment(
    width: int, height: int, nodes: seq<Node>, edges: seq<Edge>, entries: seq<string>, exits: seq<string>)

  function Max(a: int, b: int): int {
    if a < b then b else a
  }

  function Or(s: string, fallback: string): string {
    if s != "" then s else fallback
  }

  predicate IsParallel(s: Stage) {
    s.kind == "PARALLEL_BLOCK" && |s.parallelStages| > 0
  }

  predicate IsNested(s: Stage) {
    !IsParallel(s) && s.kind == "ATLAS_PIPELINE_TRIGGER" && s.nestedPipeline.Some?
  }

  predicate IsRailNodeId(id: string) {
    EndsWith(id, "/split") || EndsWith(id, "/merge")
  }

  function Child(path: string, id: string): string {
    path + "/" + id
  }

  // ---------- leaves, rails and single edges

  function LayoutLeaf(s: Stage, nodeId: string, x: int, y: int, parent: Option<string>): Segment {
    var node := Node(nodeId, x, y, LEAF_W, LEAF_H, parent, StageData(s.name, s.status));
    Segment(LEAF_W, LEAF_H, [node], [], [nodeId], [nodeId])
  }

  function RailNode(
    id: string, variant: Variant, x: int, y: int, height: int, branchCenters: seq<int>, parent: Option<string>): Node
  {
    Node(id, x, y, RAIL_W, Max(height, LEAF_H), parent, RailData(variant, branchCenters))
  }

  /** The edges from one stage's exit to the next stage's entries. */
  function EdgesFrom(source: string, targets: seq<string>): seq<Edge> {
    if targets == [] then []
    else
      EdgesFrom(source, targets[..|targets| - 1]) +
      [Edge(
         source, targets[|targets| - 1],
         if EndsWith(source, "/merge") then "out" else "",
         if EndsWith(targets[|targets| - 1], "/split") then "in" else "")]
  }

  function Connect(sources: seq<string>, targets: seq<string>): seq<Edge> {
    if sources == [] then []
    else Connect(sources[..|sources| - 1], targets) + EdgesFrom(sources[|sources| - 1], targets)
  }

  /** The edges from a split rail to a branch, and from a branch to its merge rail. */
  function SplitEdges(splitId: string, entries: seq<string>, i: nat): seq<Edge> {
    if entries == [] then []
    else SplitEdges(splitId, entries[..|entries| - 1], i) +
         [Edge(splitId, entries[|entries| - 1], "s" + Decimal(i), "")]
  }

  function MergeEdges(exits: seq<string>, mergeId: string, i: nat): seq<Edge> {
    if exits == [] then []
    else MergeEdges(exits[..|exits| - 1], mergeId, i) +
         [Edge(exits[|exits| - 1], mergeId, "", "t" + Decimal(i))]
  }

  // ---------- parallel blocks

  datatype Branches = Branches(nodes: seq<Node>, edges: seq<Edge>, centers: seq<int>, nextY: int, maxW: int)

  /** One more branch, placed below the ones before it. */
  function AddBranch(acc: Branches, placed: Segment, i: nat, prefix: string, y: int): Branches {
    Branches(
      acc.nodes + placed.nodes,
      acc.edges + placed.edges
        + SplitEdges(prefix + "/split", placed.entries, i)
        + MergeEdges(placed.exits, prefix + "/merge", i),
      acc.centers + [acc.nextY + placed.height / 2 - y],
      acc.nextY + placed.height + GAP_Y,
      Max(acc.maxW, placed.width))
  }

  /** The first `n` branches of a block, stacked downwards from (childX, y). */
  function BranchesUpTo(
    stages: seq<Stage>, n: nat, prefix: string, childX: int, y: int,
    parent: Option<string>, collapsed: set<string>): Branches
    requires n <= |stages|
    decreases stages, 0, n
  {
    if n == 0 then Branches([], [], [], y, 0)
    else
      var acc := BranchesUpTo(stages, n - 1, prefix, childX, y, parent, collapsed);
      var placed := LayoutStage(stages[n - 1], Child(prefix, stages[n - 1].id), childX, acc.nextY, parent, collapsed);
      AddBranch(acc, placed, n - 1, prefix, y)
  }

  /** The block around its branches: one rail before them and one behind them. */
  function CloseBlock(
    b: Branches, count: nat, prefix: string, x: int, y: int, parent: Option<string>): Segment
  {
    var childX := x + RAIL_GAP + RAIL_W;
    var height := if count > 0 then b.nextY - y - GAP_Y else LEAF_H;
    var mergeX := childX + b.maxW + RAIL_GAP;
    Segment(
      if count > 0 then mergeX + RAIL_W - x else RAIL_W,
      Max(height, LEAF_H),
      b.nodes + [RailNode(prefix + "/split", Split, x, y, height, b.centers, parent),
                 RailNode(prefix + "/merge", Merge, mergeX, y, height, b.centers, parent)],
      b.edges,
      [prefix + "/split"],
      [prefix + "/merge"])
  }

  function LayoutParallelBlock(
    s: Stage, prefix: string, x: int, y: int, parent: Option<string>, collapsed: set<string>): Segment
    decreases s, 1
  {
    CloseBlock(
      BranchesUpTo(s.parallelStages, |s.parallelStages|, prefix, x + RAIL_GAP + RAIL_W, y, parent, collapsed),
      |s.parallelStages|, prefix, x, y, parent)
  }

  // ---------- nested pipelines

  function GroupNode(
    s: Stage, groupId: string, x: int, y: int, w: int, h: int, parent: Option<string>, isCollapsed: bool): Node
    requires s.nestedPipeline.Some?
  {
    var nested := s.nestedPipeline.value;
    Node(groupId, x, y, w, h, parent,
         GroupData(Or(nested.name, s.name), Or(nested.status, s.status), isCollapsed))
  }

  /** Whether a nested pipeline shows its stages. */
  predicate IsOpen(s: Stage, groupId: string, collapsed: set<string>)
    requires s.nestedPipeline.Some?
  {
    groupId !in collapsed && |s.nestedPipeline.value.stages| > 0
  }

  function NestedPath(groupId: string): string {
    groupId + "/nested"
  }

  function LayoutNestedPipeline(
    s: Stage, groupId: string, x: int, y: int, parent: Option<string>, collapsed: set<string>): Segment
    requires s.nestedPipeline.Some?
    decreases s, 1
  {
    if IsOpen(s, groupId, collapsed) then
      var inner := LayoutStages(
        s.nestedPipeline.value.stages, NestedPath(groupId), GROUP_PAD, HEADER_H + GROUP_PAD, Some(groupId), collapsed);
      var w := Max(inner.width + GROUP_PAD * 2, MIN_GROUP_W);
      var h := HEADER_H + GROUP_PAD * 2 + inner.height;
      Segment(w, h, [GroupNode(s, groupId, x, y, w, h, parent, false)] + inner.nodes, inner.edges, [groupId], [groupId])
    else
      var h := HEADER_H + GROUP_PAD * 2;
      Segment(
        MIN_GROUP_W, h,
        [GroupNode(s, groupId, x, y, MIN_GROUP_W, h, parent, groupId in collapsed)], [], [groupId], [groupId])
  }

  function LayoutStage(
    s: Stage, nodeId: string, x: int, y: int, parent: Option<string>, collapsed: set<string>): Segment
    decreases s, 2
  {
    if IsParallel(s) then LayoutParallelBlock(s, nodeId, x, y, parent, collapsed)
    else if IsNested(s) then LayoutNestedPipeline(s, nodeId, x, y, parent, collapsed)
    else LayoutLeaf(s, nodeId, x, y, parent)
  }

  // ---------- stage lists

  datatype Row = Row(
    nodes: seq<Node>, edges: seq<Edge>, nextX: int, maxH: int, firstEntries: seq<string>, prevExits: seq<string>)

  /** One more stage, placed to the right of the ones before it and connected to the last. */
  function AddStage(acc: Row, placed: Segment, i: nat): Row {
    Row(
      acc.nodes + placed.nodes,
      acc.edges + placed.edges + Connect(acc.prevExits, placed.entries),
      acc.nextX + placed.width + GAP_X,
      Max(acc.maxH, placed.height),
      if i == 0 then placed.entries else acc.firstEntries,
      placed.exits)
  }

  /** The first `n` stages of a list, set out rightwards from (x, y). */
  function RowUpTo(
    stages: seq<Stage>, n: nat, path: string, x: int, y: int, parent: Option<string>, collapsed: set<string>): Row
    requires n <= |stages|
    decreases stages, 0, n
  {
    if n == 0 then Row([], [], x, 0, [], [])
    else
      var acc := RowUpTo(stages, n - 1, path, x, y, parent, collapsed);
      var placed := LayoutStage(stages[n - 1], Child(path, stages[n - 1].id), acc.nextX, y, parent, collapsed);
      AddStage(acc, placed, n - 1)
  }

  function CloseRow(row: Row, count: nat, x: int): Segment {
    Segment(
      if count > 0 then row.nextX - x - GAP_X else 0,
      row.maxH, row.nodes, row.edges, row.firstEntries, row.prevExits)
  }

  function LayoutStages(
    stages: seq<Stage>, path: string, x: int, y: int, parent: Option<string>, collapsed: set<string>): Segment
    decreases stages, 1
  {
    CloseRow(RowUpTo(stages, |stages|, path, x, y, parent, collapsed), |stages|, x)
  }

  /** The whole drawing of a report. */
  function LayoutReport(stages: seq<Stage>, collapsed: set<string>): Segment {
    if stages == [] then Segment(0, 0, [], [], [], [])
    else LayoutStages(stages, "root", ROOT_OFFSET, ROOT_OFFSET, None, collapsed)
  }
}
