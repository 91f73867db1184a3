/** Edges join two boxes of one group and run strictly from left to right. */
module Flow {
  import opened Options
  import opened Layout
  import Text

  /** The room an edge has: stages stand 72 apart, a branch 56 behind its split rail and no closer to its merge rail. */
  predicate Spaced(e: Edge, gap: int) {
    if e.sourceHandle !in {"", "out"} then gap == 56
    else if e.targetHandle !in {"", "in"} then gap >= 56
    else gap == 72
  }

  /** An edge whose ends are drawn at `i` and `j`, in one group, with just that room between them. */
  predicate DrawnBetween(nodes: seq<Node>, e: Edge, i: nat, j: nat) {
    && i < |nodes| && j < |nodes|
    && nodes[i].id == e.source && nodes[j].id == e.target
    && nodes[i].parent == nodes[j].parent
    && Spaced(e, nodes[j].x - (nodes[i].x + nodes[i].w))
  }

  ghost predicate Drawn(nodes: seq<Node>, e: Edge) {
    exists i: nat, j: nat :: DrawnBetween(nodes, e, i, j)
  }

  ghost predicate AllDrawn(nodes: seq<Node>, edges: seq<Edge>) {
    forall e | e in edges :: Drawn(nodes, e)
  }

  /** A node of that id stands in `parent` with its left side at `x`. */
  ghost predicate LeftEnd(nodes: seq<Node>, id: string, x: int, parent: Option<string>) {
    exists k :: 0 <= k < |nodes| && nodes[k].id == id && nodes[k].x == x && nodes[k].parent == parent
  }

  /** A node of that id stands in `parent` with its right side at `x`. */
  ghost predicate RightEnd(nodes: seq<Node>, id: string, x: int, parent: Option<string>) {
    exists k :: 0 <= k < |nodes| && nodes[k].id == id && nodes[k].x + nodes[k].w == x && nodes[k].parent == parent
  }

  lemma {:induction false} DrawnWider(a: seq<Node>, nodes: seq<Node>, b: seq<Node>, e: Edge)
    requires Drawn(nodes, e)
    ensures Drawn(a + nodes + b, e)
  {
    var i: nat, j: nat :| DrawnBetween(nodes, e, i, j);
    assert DrawnBetween(a + nodes + b, e, |a| + i, |a| + j);
  }

  lemma {:induction false} AllDrawnWider(a: seq<Node>, nodes: seq<Node>, b: seq<Node>, edges: seq<Edge>)
    requires AllDrawn(nodes, edges)
    ensures AllDrawn(a + nodes + b, edges)
  {
    forall e | e in edges ensures Drawn(a + nodes + b, e) {
      DrawnWider(a, nodes, b, e);
    }
  }

  lemma {:induction false} LeftEndWider(
    a: seq<Node>, nodes: seq<Node>, b: seq<Node>, id: string, x: int, parent: Option<string>)
    requires LeftEnd(nodes, id, x, parent)
    ensures LeftEnd(a + nodes + b, id, x, parent)
  {
    var k :| 0 <= k < |nodes| && nodes[k].id == id && nodes[k].x == x && nodes[k].parent == parent;
    assert (a + nodes + b)[|a| + k] == nodes[k];
  }

  lemma {:induction false} RightEndWider(
    a: seq<Node>, nodes: seq<Node>, b: seq<Node>, id: string, x: int, parent: Option<string>)
    requires RightEnd(nodes, id, x, parent)
    ensures RightEnd(a + nodes + b, id, x, parent)
  {
    var k :| 0 <= k < |nodes| && nodes[k].id == id && nodes[k].x + nodes[k].w == x && nodes[k].parent == parent;
    assert (a + nodes + b)[|a| + k] == nodes[k];
  }

  lemma {:induction false} DrawEdge(
    nodes: seq<Node>, e: Edge, right: int, left: int, parent: Option<string>)
    requires RightEnd(nodes, e.source, right, parent) && LeftEnd(nodes, e.target, left, parent)
    requires Spaced(e, left - right)
    ensures Drawn(nodes, e)
  {
    var i :| 0 <= i < |nodes| && nodes[i].id == e.source && nodes[i].x + nodes[i].w == right
      && nodes[i].parent == parent;
    var j :| 0 <= j < |nodes| && nodes[j].id == e.target && nodes[j].x == left && nodes[j].parent == parent;
    assert DrawnBetween(nodes, e, i, j);
  }

  // ---------- what every part of a drawing keeps

  /** One entry at the left side, one exit at the right side, and all edges drawn. */
  ghost predicate Flowing(seg: Segment, x: int, parent: Option<string>) {
    && seg.width >= 0
    && |seg.entries| == 1 && |seg.exits| == 1
    && LeftEnd(seg.nodes, seg.entries[0], x, parent)
    && RightEnd(seg.nodes, seg.exits[0], x + seg.width, parent)
    && AllDrawn(seg.nodes, seg.edges)
  }

  lemma {:induction false} SingleConnection(source: string, target: string)
    ensures Connect([source], [target]) ==
            [Edge(source, target,
                  if Text.EndsWith(source, "/merge") then "out" else "",
                  if Text.EndsWith(target, "/split") then "in" else "")]
  {
    assert [source][..|[source]| - 1] == [] && [target][..|[target]| - 1] == [];
    assert EdgesFrom(source, []) == [] && Connect([], [target]) == [];
    assert EdgesFrom(source, [target]) ==
           [Edge(source, target,
                 if Text.EndsWith(source, "/merge") then "out" else "",
                 if Text.EndsWith(target, "/split") then "in" else "")];
  }

  lemma {:induction false} SingleRailEdges(splitId: string, entry: string, exit: string, mergeId: string, i: nat)
    ensures SplitEdges(splitId, [entry], i) == [Edge(splitId, entry, "s" + Text.Decimal(i), "")]
    ensures MergeEdges([exit], mergeId, i) == [Edge(exit, mergeId, "", "t" + Text.Decimal(i))]
    ensures Spaced(SplitEdges(splitId, [entry], i)[0], 56) && ToMerge(MergeEdges([exit], mergeId, i)[0])
  {
    assert ("s" + Text.Decimal(i))[0] == 's' && ("t" + Text.Decimal(i))[0] == 't';
    assert [entry][..0] == [] && [exit][..0] == [];
  }

  lemma {:induction false} StageFlows(
    s: Stage, id: string, x: int, y: int, parent: Option<string>, collapsed: set<string>)
    ensures Flowing(LayoutStage(s, id, x, y, parent, collapsed), x, parent)
    decreases s, 2
  {
    var seg := LayoutStage(s, id, x, y, parent, collapsed);
    if IsParallel(s) {
      BlockFlows(s, id, x, y, parent, collapsed);
    } else if IsNested(s) {
      GroupFlows(s, id, x, y, parent, collapsed);
    } else {
      assert seg.nodes[0].id == id;
    }
  }

  lemma {:induction false} GroupFlows(
    s: Stage, id: string, x: int, y: int, parent: Option<string>, collapsed: set<string>)
    requires s.nestedPipeline.Some?
    ensures Flowing(LayoutNestedPipeline(s, id, x, y, parent, collapsed), x, parent)
    decreases s, 1
  {
    var seg := LayoutNestedPipeline(s, id, x, y, parent, collapsed);
    assert seg.nodes[0].id == id;
    if IsOpen(s, id, collapsed) {
      var stages := s.nestedPipeline.value.stages;
      RowFlows(stages, |stages|, NestedPath(id), GROUP_PAD, HEADER_H + GROUP_PAD, Some(id), collapsed);
      var row := RowUpTo(stages, |stages|, NestedPath(id), GROUP_PAD, HEADER_H + GROUP_PAD, Some(id), collapsed);
      var inner := LayoutStages(stages, NestedPath(id), GROUP_PAD, HEADER_H + GROUP_PAD, Some(id), collapsed);
      assert inner.nodes == row.nodes && inner.edges == row.edges;
      AllDrawnWider([seg.nodes[0]], row.nodes, [], row.edges);
      assert seg.nodes == [seg.nodes[0]] + row.nodes + [];
    }
  }

  /** The branches of a block before its rails are drawn: every edge is either drawn among the branches,
      or runs from the split rail to an entry at the left, or from an exit to the merge rail. */
  ghost predicate BranchFlow(b: Branches, prefix: string, childX: int, parent: Option<string>) {
    && b.maxW >= 0
    && forall e | e in b.edges ::
      || Drawn(b.nodes, e)
      || (e.source == prefix + "/split" && Spaced(e, 56) && LeftEnd(b.nodes, e.target, childX, parent))
      || (e.target == prefix + "/merge" && ToMerge(e) && ExitUpTo(b.nodes, e.source, childX + b.maxW, parent))
  }

  predicate ToMerge(e: Edge) {
    e.sourceHandle == "" && e.targetHandle !in {"", "in"}
  }

  ghost predicate ExitUpTo(nodes: seq<Node>, id: string, x: int, parent: Option<string>) {
    exists k :: 0 <= k < |nodes| && nodes[k].id == id && nodes[k].x + nodes[k].w <= x && nodes[k].parent == parent
  }

  lemma {:induction false} ExitUpToWider(
    nodes: seq<Node>, b: seq<Node>, id: string, x: int, x': int, parent: Option<string>)
    requires ExitUpTo(nodes, id, x, parent) && x <= x'
    ensures ExitUpTo(nodes + b, id, x', parent)
  {
    var k :| 0 <= k < |nodes| && nodes[k].id == id && nodes[k].x + nodes[k].w <= x && nodes[k].parent == parent;
    assert (nodes + b)[k] == nodes[k];
  }

  lemma {:induction false} AddBranchFlows(
    acc: Branches, placed: Segment, i: nat, prefix: string, childX: int, y: int, parent: Option<string>)
    requires BranchFlow(acc, prefix, childX, parent) && Flowing(placed, childX, parent)
    ensures BranchFlow(AddBranch(acc, placed, i, prefix, y), prefix, childX, parent)
  {
    var b := AddBranch(acc, placed, i, prefix, y);
    SingleRailEdges(prefix + "/split", placed.entries[0], placed.exits[0], prefix + "/merge", i);
    assert placed.entries == [placed.entries[0]] && placed.exits == [placed.exits[0]];
    hide LeftEnd, RightEnd, ExitUpTo, Drawn, SplitEdges, MergeEdges;
    assert b.nodes == [] + acc.nodes + placed.nodes == acc.nodes + placed.nodes + [];
    forall e | e in b.edges
      ensures || Drawn(b.nodes, e)
              || (e.source == prefix + "/split" && Spaced(e, 56) && LeftEnd(b.nodes, e.target, childX, parent))
              || (e.target == prefix + "/merge" && ToMerge(e) && ExitUpTo(b.nodes, e.source, childX + b.maxW, parent))
    {
      if e in acc.edges {
        if Drawn(acc.nodes, e) {
          DrawnWider([], acc.nodes, placed.nodes, e);
        } else if e.source == prefix + "/split" && Spaced(e, 56) && LeftEnd(acc.nodes, e.target, childX, parent) {
          LeftEndWider([], acc.nodes, placed.nodes, e.target, childX, parent);
        } else {
          ExitUpToWider(acc.nodes, placed.nodes, e.source, childX + acc.maxW, childX + b.maxW, parent);
        }
      } else if e in placed.edges {
        DrawnWider(acc.nodes, placed.nodes, [], e);
      } else if e == Edge(prefix + "/split", placed.entries[0], "s" + Text.Decimal(i), "") {
        LeftEndWider(acc.nodes, placed.nodes, [], placed.entries[0], childX, parent);
      } else {
        RightEndWider(acc.nodes, placed.nodes, [], placed.exits[0], childX + placed.width, parent);
        RightIsUpTo(b.nodes, placed.exits[0], childX + placed.width, childX + b.maxW, parent);
      }
    }
  }

  lemma {:induction false} RightIsUpTo(nodes: seq<Node>, id: string, x: int, x': int, parent: Option<string>)
    requires RightEnd(nodes, id, x, parent) && x <= x'
    ensures ExitUpTo(nodes, id, x', parent)
  {
  }

  lemma {:induction false} BranchesFlow(
    stages: seq<Stage>, n: nat, prefix: string, childX: int, y: int, parent: Option<string>, collapsed: set<string>)
    requires n <= |stages|
    ensures BranchFlow(BranchesUpTo(stages, n, prefix, childX, y, parent, collapsed), prefix, childX, parent)
    decreases stages, 0, n
  {
    if n > 0 {
      hide LayoutStage, Flowing, BranchFlow, AddBranch, Child;
      var acc := BranchesUpTo(stages, n - 1, prefix, childX, y, parent, collapsed);
      var id := Child(prefix, stages[n - 1].id);
      var placed := LayoutStage(stages[n - 1], id, childX, acc.nextY, parent, collapsed);
      assert BranchesUpTo(stages, n, prefix, childX, y, parent, collapsed) == AddBranch(acc, placed, n - 1, prefix, y);
      BranchesFlow(stages, n - 1, prefix, childX, y, parent, collapsed);
      StageFlows(stages[n - 1], id, childX, acc.nextY, parent, collapsed);
      hide BranchesUpTo;
      AddBranchFlows(acc, placed, n - 1, prefix, childX, y, parent);
    }
  }

  lemma {:induction false} BlockFlows(
    s: Stage, id: string, x: int, y: int, parent: Option<string>, collapsed: set<string>)
    requires |s.parallelStages| > 0
    ensures Flowing(LayoutParallelBlock(s, id, x, y, parent, collapsed), x, parent)
    decreases s, 1
  {
    var stages := s.parallelStages;
    BranchesFlow(stages, |stages|, id, x + RAIL_GAP + RAIL_W, y, parent, collapsed);
    CloseBlockFlows(BranchesUpTo(stages, |stages|, id, x + RAIL_GAP + RAIL_W, y, parent, collapsed),
                    |stages|, id, x, y, parent);
  }

  lemma {:induction false} CloseBlockFlows(
    b: Branches, count: nat, prefix: string, x: int, y: int, parent: Option<string>)
    requires count > 0 && BranchFlow(b, prefix, x + RAIL_GAP + RAIL_W, parent)
    ensures Flowing(CloseBlock(b, count, prefix, x, y, parent), x, parent)
  {
    var seg := CloseBlock(b, count, prefix, x, y, parent);
    BlockEnds(b, count, prefix, x, y, parent);
    BlockNodes(b, count, prefix, x, y, parent);
    hide LeftEnd, RightEnd, ExitUpTo, Drawn, BranchFlow;
    BlockEdgesDrawn(b, prefix, seg.nodes, seg.nodes[|b.nodes|..], x, parent);
    assert b.maxW >= 0 by { WidthIsNat(b, prefix, x + RAIL_GAP + RAIL_W, parent); }
  }

  lemma {:induction false} WidthIsNat(b: Branches, prefix: string, childX: int, parent: Option<string>)
    requires BranchFlow(b, prefix, childX, parent)
    ensures b.maxW >= 0
  {
  }

  lemma {:induction false} BlockNodes(
    b: Branches, count: nat, prefix: string, x: int, y: int, parent: Option<string>)
    ensures var nodes := CloseBlock(b, count, prefix, x, y, parent).nodes;
            |nodes| >= |b.nodes| && nodes == b.nodes + nodes[|b.nodes|..]
  {
  }

  lemma {:induction false} BlockEdgesDrawn(
    b: Branches, prefix: string, nodes: seq<Node>, rails: seq<Node>, x: int, parent: Option<string>)
    requires BranchFlow(b, prefix, x + RAIL_GAP + RAIL_W, parent) && nodes == b.nodes + rails
    requires RightEnd(nodes, prefix + "/split", x + RAIL_W, parent)
    requires LeftEnd(nodes, prefix + "/merge", x + RAIL_GAP + RAIL_W + b.maxW + RAIL_GAP, parent)
    ensures AllDrawn(nodes, b.edges)
  {
    var childX := x + RAIL_GAP + RAIL_W;
    hide LeftEnd, RightEnd, ExitUpTo, Drawn;
    assert nodes == [] + b.nodes + rails;
    forall e | e in b.edges ensures Drawn(nodes, e) {
      if Drawn(b.nodes, e) {
        DrawnWider([], b.nodes, rails, e);
      } else if e.source == prefix + "/split" && Spaced(e, 56) && LeftEnd(b.nodes, e.target, childX, parent) {
        LeftEndWider([], b.nodes, rails, e.target, childX, parent);
        DrawEdge(nodes, e, x + RAIL_W, childX, parent);
      } else {
        ExitUpToWider(b.nodes, rails, e.source, childX + b.maxW, childX + b.maxW, parent);
        DrawToMerge(nodes, e, childX + b.maxW, parent);
      }
    }
  }

  /** Where the rails of a block stand. */
  lemma {:induction false} BlockEnds(
    b: Branches, count: nat, prefix: string, x: int, y: int, parent: Option<string>)
    requires count > 0
    ensures var seg := CloseBlock(b, count, prefix, x, y, parent);
            && LeftEnd(seg.nodes, prefix + "/split", x, parent)
            && RightEnd(seg.nodes, prefix + "/split", x + RAIL_W, parent)
            && LeftEnd(seg.nodes, prefix + "/merge", x + RAIL_GAP + RAIL_W + b.maxW + RAIL_GAP, parent)
            && RightEnd(seg.nodes, prefix + "/merge", x + seg.width, parent)
  {
    var nodes := CloseBlock(b, count, prefix, x, y, parent).nodes;
    assert nodes[|b.nodes|].id == prefix + "/split" && nodes[|b.nodes| + 1].id == prefix + "/merge";
  }

  lemma {:induction false} DrawToMerge(nodes: seq<Node>, e: Edge, right: int, parent: Option<string>)
    requires ExitUpTo(nodes, e.source, right, parent) && LeftEnd(nodes, e.target, right + RAIL_GAP, parent)
    requires ToMerge(e)
    ensures Drawn(nodes, e)
  {
    var i :| 0 <= i < |nodes| && nodes[i].id == e.source && nodes[i].x + nodes[i].w <= right
      && nodes[i].parent == parent;
    DrawEdge(nodes, e, nodes[i].x + nodes[i].w, right + RAIL_GAP, parent);
  }

  ghost predicate RowFlow(row: Row, x: int, parent: Option<string>) {
    && AllDrawn(row.nodes, row.edges)
    && |row.prevExits| <= 1
    && (|row.prevExits| == 1 ==> RightEnd(row.nodes, row.prevExits[0], row.nextX - GAP_X, parent))
    && (row.firstEntries != [] ==> |row.firstEntries| == 1 && LeftEnd(row.nodes, row.firstEntries[0], x, parent))
  }

  /** The edges between the exit of one stage and the entry of the next, if there is one before. */
  lemma {:induction false} ConnectionDrawn(
    nodes: seq<Node>, exits: seq<string>, entries: seq<string>, x: int, parent: Option<string>)
    requires |exits| <= 1 && |entries| == 1 && LeftEnd(nodes, entries[0], x, parent)
    requires |exits| == 1 ==> RightEnd(nodes, exits[0], x - GAP_X, parent)
    ensures AllDrawn(nodes, Connect(exits, entries))
  {
    hide LeftEnd, RightEnd, Drawn, Connect;
    assert entries == [entries[0]];
    if exits == [] {
      NoConnection(entries);
    } else {
      assert exits == [exits[0]];
      SingleConnection(exits[0], entries[0]);
      DrawEdge(nodes, Connect(exits, entries)[0], x - GAP_X, x, parent);
    }
  }

  lemma {:induction false} AllDrawnConcat(nodes: seq<Node>, a: seq<Edge>, b: seq<Edge>)
    requires AllDrawn(nodes, a) && AllDrawn(nodes, b)
    ensures AllDrawn(nodes, a + b)
  {
    hide Drawn;
  }

  lemma {:induction false} AddStageFlows(acc: Row, placed: Segment, i: nat, x: int, parent: Option<string>)
    requires RowFlow(acc, x, parent) && Flowing(placed, acc.nextX, parent)
    requires i == 0 ==> acc.nextX == x
    ensures RowFlow(AddStage(acc, placed, i), x, parent)
  {
    hide LeftEnd, RightEnd, Drawn, Connect, AllDrawn;
    var nodes := acc.nodes + placed.nodes;
    assert nodes == [] + acc.nodes + placed.nodes == acc.nodes + placed.nodes + [];
    AllDrawnWider([], acc.nodes, placed.nodes, acc.edges);
    AllDrawnWider(acc.nodes, placed.nodes, [], placed.edges);
    LeftEndWider(acc.nodes, placed.nodes, [], placed.entries[0], acc.nextX, parent);
    RightEndWider(acc.nodes, placed.nodes, [], placed.exits[0], acc.nextX + placed.width, parent);
    if i > 0 && acc.firstEntries != [] {
      LeftEndWider([], acc.nodes, placed.nodes, acc.firstEntries[0], x, parent);
    }
    if acc.prevExits == [] {
      NoConnection(placed.entries);
    } else {
      RightEndWider([], acc.nodes, placed.nodes, acc.prevExits[0], acc.nextX - GAP_X, parent);
    }
    ConnectionDrawn(nodes, acc.prevExits, placed.entries, acc.nextX, parent);
    AllDrawnConcat(nodes, acc.edges, placed.edges);
    AllDrawnConcat(nodes, acc.edges + placed.edges, Connect(acc.prevExits, placed.entries));
  }

  lemma {:induction false} NoConnection(targets: seq<string>)
    ensures Connect([], targets) == []
  {
  }

  lemma {:induction false} RowFlows(
    stages: seq<Stage>, n: nat, path: string, x: int, y: int, parent: Option<string>, collapsed: set<string>)
    requires n <= |stages|
    ensures var row := RowUpTo(stages, n, path, x, y, parent, collapsed);
            RowFlow(row, x, parent) && (n > 0 ==> |row.firstEntries| == 1 && |row.prevExits| == 1)
    decreases stages, 0, n
  {
    if n > 0 {
      var acc := RowUpTo(stages, n - 1, path, x, y, parent, collapsed);
      var id := Child(path, stages[n - 1].id);
      var placed := LayoutStage(stages[n - 1], id, acc.nextX, y, parent, collapsed);
      RowFlows(stages, n - 1, path, x, y, parent, collapsed);
      StageFlows(stages[n - 1], id, acc.nextX, y, parent, collapsed);
      hide LayoutStage, RowFlow, AllDrawn, LeftEnd, RightEnd;
      AddStageFlows(acc, placed, n - 1, x, parent);
    }
  }

  /** For every report and collapsed set: each edge joins two boxes of one group, the source ending just as far to the
      left of where the target starts as edges of its kind have room; the row has one entry and one exit. */
  lemma EdgesRunForward(stages: seq<Stage>, collapsed: set<string>)
    ensures var drawing := LayoutReport(stages, collapsed);
            && AllDrawn(drawing.nodes, drawing.edges)
            && (stages != [] ==> |drawing.entries| == 1 && |drawing.exits| == 1)
  {
    RowFlows(stages, |stages|, "root", ROOT_OFFSET, ROOT_OFFSET, None, collapsed);
  }
}
