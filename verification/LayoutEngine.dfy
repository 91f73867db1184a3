/** The layout as the viewer runs it: loops over siblings that push nodes and edges and move a cursor. */
module LayoutEngine {
  import opened Options
  import opened Text
  import opened Layout

  method ConnectSegments(fromExits: seq<string>, toEntries: seq<string>, edges: seq<Edge>) returns (out: seq<Edge>)
    ensures out == edges + Connect(fromExits, toEntries)
  {
    out := edges;
    for i := 0 to |fromExits|
      invariant out == edges + Connect(fromExits[..i], toEntries)
    {
      var source := fromExits[i];
      for j := 0 to |toEntries|
        invariant out == edges + Connect(fromExits[..i], toEntries) + EdgesFrom(source, toEntries[..j])
      {
        var target := toEntries[j];
        assert toEntries[..j + 1][..j] == toEntries[..j];
        var sourceHandle := if EndsWith(source, "/merge") then "out" else "";
        var targetHandle := if EndsWith(target, "/split") then "in" else "";
        out := out + [Edge(source, target, sourceHandle, targetHandle)];
      }
      assert toEntries[..|toEntries|] == toEntries;
      assert fromExits[..i + 1][..i] == fromExits[..i];
    }
    assert fromExits[..|fromExits|] == fromExits;
  }

  /** The edges between a split rail and a branch's entries, and between its exits and the merge rail. */
  method ConnectBranch(splitId: string, mergeId: string, placed: Segment, i: nat, edges: seq<Edge>)
    returns (out: seq<Edge>)
    ensures out == edges + SplitEdges(splitId, placed.entries, i) + MergeEdges(placed.exits, mergeId, i)
  {
    out := edges;
    for j := 0 to |placed.entries|
      invariant out == edges + SplitEdges(splitId, placed.entries[..j], i)
    {
      assert placed.entries[..j + 1][..j] == placed.entries[..j];
      out := out + [Edge(splitId, placed.entries[j], "s" + Decimal(i), "")];
    }
    assert placed.entries[..|placed.entries|] == placed.entries;
    for j := 0 to |placed.exits|
      invariant out == edges + SplitEdges(splitId, placed.entries, i) + MergeEdges(placed.exits[..j], mergeId, i)
    {
      assert placed.exits[..j + 1][..j] == placed.exits[..j];
      out := out + [Edge(placed.exits[j], mergeId, "", "t" + Decimal(i))];
    }
    assert placed.exits[..|placed.exits|] == placed.exits;
  }

  method PlaceParallelBlock(
    s: Stage, pathPrefix: string, x: int, y: int, parent: Option<string>, collapsed: set<string>)
    returns (seg: Segment)
    ensures seg == LayoutParallelBlock(s, pathPrefix, x, y, parent, collapsed)
    decreases s, 1
  {
    hide LayoutStage, SplitEdges, MergeEdges, RailNode;
    var children := s.parallelStages;
    var splitId, mergeId := pathPrefix + "/split", pathPrefix + "/merge";
    var childX, childY, maxChildW := x + RAIL_GAP + RAIL_W, y, 0;
    var nodes, edges, branchCenters := [], [], [];
    for i := 0 to |children|
      invariant Branches(nodes, edges, branchCenters, childY, maxChildW) ==
                BranchesUpTo(children, i, pathPrefix, childX, y, parent, collapsed)
    {
      var placed := PlaceStage(children[i], pathPrefix + "/" + children[i].id, childX, childY, parent, collapsed);
      nodes := nodes + placed.nodes;
      edges := edges + placed.edges;
      branchCenters := branchCenters + [childY + placed.height / 2 - y];
      edges := ConnectBranch(splitId, mergeId, placed, i, edges);
      childY := childY + placed.height + GAP_Y;
      maxChildW := Max(maxChildW, placed.width);
    }
    var height := if |children| > 0 then childY - y - GAP_Y else LEAF_H;
    var mergeX := childX + maxChildW + RAIL_GAP;
    nodes := nodes + [RailNode(splitId, Split, x, y, height, branchCenters, parent),
                      RailNode(mergeId, Merge, mergeX, y, height, branchCenters, parent)];
    var width := if |children| > 0 then mergeX + RAIL_W - x else RAIL_W;
    seg := Segment(width, Max(height, LEAF_H), nodes, edges, [splitId], [mergeId]);
  }

  method PlaceNestedPipeline(
    s: Stage, groupId: string, x: int, y: int, parent: Option<string>, collapsed: set<string>)
    returns (seg: Segment)
    requires s.nestedPipeline.Some?
    ensures seg == LayoutNestedPipeline(s, groupId, x, y, parent, collapsed)
    decreases s, 1
  {
    var nested := s.nestedPipeline.value;
    var isCollapsed := groupId in collapsed;
    var groupW, groupH := MIN_GROUP_W, HEADER_H + GROUP_PAD * 2;
    var nodes, edges := [], [];
    if !isCollapsed && |nested.stages| > 0 {
      var inner := PlaceStages(
        nested.stages, groupId + "/nested", GROUP_PAD, HEADER_H + GROUP_PAD, Some(groupId), collapsed);
      nodes := nodes + inner.nodes;
      edges := edges + inner.edges;
      groupW := Max(inner.width + GROUP_PAD * 2, MIN_GROUP_W);
      groupH := HEADER_H + GROUP_PAD * 2 + inner.height;
    }
    nodes := [GroupNode(s, groupId, x, y, groupW, groupH, parent, isCollapsed)] + nodes;
    seg := Segment(groupW, groupH, nodes, edges, [groupId], [groupId]);
  }

  method PlaceStage(
    s: Stage, nodeId: string, x: int, y: int, parent: Option<string>, collapsed: set<string>)
    returns (seg: Segment)
    ensures seg == LayoutStage(s, nodeId, x, y, parent, collapsed)
    decreases s, 2
  {
    if IsParallel(s) {
      seg := PlaceParallelBlock(s, nodeId, x, y, parent, collapsed);
    } else if IsNested(s) {
      seg := PlaceNestedPipeline(s, nodeId, x, y, parent, collapsed);
    } else {
      seg := LayoutLeaf(s, nodeId, x, y, parent);
    }
  }

  method PlaceStages(
    stages: seq<Stage>, path: string, offsetX: int, offsetY: int, parent: Option<string>, collapsed: set<string>)
    returns (seg: Segment)
    ensures seg == LayoutStages(stages, path, offsetX, offsetY, parent, collapsed)
    decreases stages, 1
  {
    var x, y, maxHeight := offsetX, offsetY, 0;
    var nodes, edges, prevExits, firstEntries := [], [], [], [];
    for i := 0 to |stages|
      invariant Row(nodes, edges, x, maxHeight, firstEntries, prevExits) ==
                RowUpTo(stages, i, path, offsetX, offsetY, parent, collapsed)
    {
      var placed := PlaceStage(stages[i], path + "/" + stages[i].id, x, y, parent, collapsed);
      nodes := nodes + placed.nodes;
      edges := edges + placed.edges;
      if i == 0 { firstEntries := placed.entries; }
      if |prevExits| > 0 {
        edges := ConnectSegments(prevExits, placed.entries, edges);
      }
      x := x + placed.width + GAP_X;
      maxHeight := Max(maxHeight, placed.height);
      prevExits := placed.exits;
    }
    var width := if |stages| > 0 then x - offsetX - GAP_X else 0;
    seg := Segment(width, maxHeight, nodes, edges, firstEntries, prevExits);
  }

  /** The entry point: a report without stages has no drawing. */
  method PlaceReport(stages: seq<Stage>, collapsed: set<string>) returns (nodes: seq<Node>, edges: seq<Edge>)
    ensures nodes == LayoutReport(stages, collapsed).nodes && edges == LayoutReport(stages, collapsed).edges
  {
    if |stages| == 0 {
      return [], [];
    }
    var result := PlaceStages(stages, "root", ROOT_OFFSET, ROOT_OFFSET, None, collapsed);
    return result.nodes, result.edges;
  }
}
