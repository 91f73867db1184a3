/** Nothing is drawn looser than it has to be: branches are stacked closely, groups are as large as what they hold. */
module Spacing {
  import opened Layout
  import opened Options

  function Bottom(n: Node): int {
    n.y + n.h
  }

  function Right(n: Node): int {
    n.x + n.w
  }

  /** Boxes of one group, each 16 below the one before, the first one at `y`. */
  predicate Column(nodes: seq<Node>, boxes: seq<Node>, y: int, parent: Option<string>) {
    forall i | 0 <= i < |boxes| ::
      && boxes[i] in nodes && boxes[i].parent == parent
      && boxes[i].y == if i == 0 then y else Bottom(boxes[i - 1]) + 16
  }

  /** The middles of some boxes, measured from `y`. Nothing is rounded. */
  predicate Middles(boxes: seq<Node>, centers: seq<int>, y: int) {
    |boxes| == |centers| && forall i | 0 <= i < |boxes| :: 2 * (y + centers[i] - boxes[i].y) == boxes[i].h
  }

  /** A rail reaches from the top of the first to the bottom of the last of a column, a handle at each middle. */
  ghost predicate Stacked(nodes: seq<Node>, rail: Node)
    requires rail.data.RailData?
  {
    exists boxes: seq<Node> ::
      && boxes != [] && Column(nodes, boxes, rail.y, rail.parent) && Middles(boxes, rail.data.branchCenters, rail.y)
      && Bottom(boxes[|boxes| - 1]) == Bottom(rail)
  }

  predicate StartsAt(nodes: seq<Node>, parent: Option<string>, x: int, y: int) {
    exists n | n in nodes :: n.parent == parent && n.x == x && n.y == y
  }

  predicate EndsAt(nodes: seq<Node>, parent: Option<string>, right: int) {
    exists n | n in nodes :: n.parent == parent && Right(n) == right
  }

  predicate ReachesDown(nodes: seq<Node>, parent: Option<string>, bottom: int) {
    exists n | n in nodes :: n.parent == parent && Bottom(n) == bottom
  }

  /**
   * A closed group has one size. An open one leaves 20 on every side of what it holds, and 32 more for its header, but
   * is no narrower than a closed one.
   */
  predicate Hugged(nodes: seq<Node>, g: Node) {
    || (g.w == 140 && g.h == 72)
    || (&& StartsAt(nodes, Some(g.id), 20, 52) && ReachesDown(nodes, Some(g.id), g.h - 20) && g.w >= 140
        && exists n | n in nodes :: n.parent == Some(g.id) && g.w == Max(Right(n) + 20, 140))
  }

  ghost predicate Snug(nodes: seq<Node>, n: Node) {
    match n.data
    case StageData(_, _) => true
    case RailData(_, _) => Stacked(nodes, n)
    case GroupData(_, _, _) => Hugged(nodes, n)
  }

  ghost predicate AllSnug(nodes: seq<Node>) {
    forall n | n in nodes :: Snug(nodes, n)
  }

  // ---------- more boxes beside

  predicate Among(some: seq<Node>, nodes: seq<Node>) {
    forall n | n in some :: n in nodes
  }

  lemma {:induction false} SnugAmong(some: seq<Node>, nodes: seq<Node>, n: Node)
    requires Among(some, nodes) && Snug(some, n)
    ensures Snug(nodes, n)
  {
    if n.data.RailData? {
      var boxes: seq<Node> :|
        && boxes != [] && Column(some, boxes, n.y, n.parent) && Middles(boxes, n.data.branchCenters, n.y)
        && Bottom(boxes[|boxes| - 1]) == Bottom(n);
      assert Column(nodes, boxes, n.y, n.parent);
    }
  }

  lemma {:induction false} SnugJoin(a: seq<Node>, b: seq<Node>)
    requires AllSnug(a) && AllSnug(b)
    ensures AllSnug(a + b)
  {
    hide Snug;
    forall n | n in a + b ensures Snug(a + b, n) {
      if n in a { SnugAmong(a, a + b, n); } else { SnugAmong(b, a + b, n); }
    }
  }

  // ---------- stages

  /** The boxes of a part reach to where the part ends, one of them from its top to its bottom at its left. */
  predicate Fills(seg: Segment, x: int, y: int, parent: Option<string>) {
    && seg.height >= 44 && seg.height % 2 == 0 && EndsAt(seg.nodes, parent, x + seg.width)
    && exists n | n in seg.nodes :: n.parent == parent && n.x == x && n.y == y && n.h == seg.height
  }

  lemma {:induction false} StageSnug(
    s: Stage, id: string, x: int, y: int, parent: Option<string>, collapsed: set<string>)
    ensures var seg := LayoutStage(s, id, x, y, parent, collapsed); AllSnug(seg.nodes) && Fills(seg, x, y, parent)
    decreases s, 2
  {
    if IsParallel(s) {
      BlockSnug(s, id, x, y, parent, collapsed);
    } else if IsNested(s) {
      GroupSnug(s, id, x, y, parent, collapsed);
    } else {
      assert LayoutLeaf(s, id, x, y, parent).nodes[0] in LayoutLeaf(s, id, x, y, parent).nodes;
    }
  }

  lemma {:induction false} GroupSnug(
    s: Stage, id: string, x: int, y: int, parent: Option<string>, collapsed: set<string>)
    requires IsNested(s)
    ensures var seg := LayoutNestedPipeline(s, id, x, y, parent, collapsed);
            AllSnug(seg.nodes) && Fills(seg, x, y, parent)
    decreases s, 1
  {
    hide RowUpTo, Snug;
    var seg, stages := LayoutNestedPipeline(s, id, x, y, parent, collapsed), s.nestedPipeline.value.stages;
    var group := seg.nodes[0];
    assert group in seg.nodes;
    if IsOpen(s, id, collapsed) {
      RowSnug(stages, |stages|, NestedPath(id), GROUP_PAD, HEADER_H + GROUP_PAD, Some(id), collapsed);
      var row := RowUpTo(stages, |stages|, NestedPath(id), GROUP_PAD, HEADER_H + GROUP_PAD, Some(id), collapsed);
      var inner := LayoutStages(stages, NestedPath(id), GROUP_PAD, HEADER_H + GROUP_PAD, Some(id), collapsed);
      assert inner == CloseRow(row, |stages|, GROUP_PAD);
      assert seg.nodes == [group] + inner.nodes;
      hide LayoutStages;
      OpenGroup(group, row, seg.nodes);
    } else {
      assert Hugged(seg.nodes, group);
      ClosedGroup(group, seg.nodes);
    }
  }

  lemma {:induction false} ClosedGroup(group: Node, nodes: seq<Node>)
    requires nodes == [group] && group.data.GroupData? && Hugged(nodes, group)
    ensures AllSnug(nodes)
  {
  }

  lemma {:induction false} OpenGroup(group: Node, row: Row, nodes: seq<Node>)
    requires group.data.GroupData? && nodes == [group] + row.nodes && AllSnug(row.nodes)
    requires RowFills(row, GROUP_PAD, HEADER_H + GROUP_PAD, Some(group.id))
    requires group.h == HEADER_H + GROUP_PAD * 2 + row.maxH
    requires group.w == Max(row.nextX - GROUP_PAD - GAP_X + GROUP_PAD * 2, MIN_GROUP_W)
    ensures AllSnug(nodes)
  {
    assert Among(row.nodes, nodes);
    assert Hugged(nodes, group);
    assert Snug(nodes, group);
    hide Snug, Hugged;
    forall n | n in nodes ensures Snug(nodes, n) {
      if n in row.nodes { SnugAmong(row.nodes, nodes, n); }
    }
  }

  // ---------- stages side by side

  /** The boxes of a row that is not empty begin at its corner, and reach to its right and its bottom. */
  predicate RowFills(row: Row, x: int, y: int, parent: Option<string>) {
    && StartsAt(row.nodes, parent, x, y) && EndsAt(row.nodes, parent, row.nextX - GAP_X)
    && ReachesDown(row.nodes, parent, y + row.maxH) && row.maxH >= 44 && row.maxH % 2 == 0
  }

  lemma {:induction false} RowSnug(
    stages: seq<Stage>, n: nat, path: string, x: int, y: int, parent: Option<string>, collapsed: set<string>)
    requires n <= |stages|
    ensures var row := RowUpTo(stages, n, path, x, y, parent, collapsed);
            && AllSnug(row.nodes)
            && if n > 0 then RowFills(row, x, y, parent) else row == Row([], [], x, 0, [], [])
    decreases stages, 0, n
  {
    hide LayoutStage, AddStage, AllSnug, Fills, RowFills, Child;
    if n == 0 {
      NothingSnug();
    } else {
      var acc, id := RowUpTo(stages, n - 1, path, x, y, parent, collapsed), Child(path, stages[n - 1].id);
      var placed := LayoutStage(stages[n - 1], id, acc.nextX, y, parent, collapsed);
      RowSnug(stages, n - 1, path, x, y, parent, collapsed);
      StageSnug(stages[n - 1], id, acc.nextX, y, parent, collapsed);
      AddStageSnug(acc, placed, n - 1, x, y, parent);
    }
  }

  lemma {:induction false} NothingSnug()
    ensures AllSnug([])
  {
  }

  lemma {:induction false} AddStageSnug(acc: Row, placed: Segment, i: nat, x: int, y: int, parent: Option<string>)
    requires AllSnug(acc.nodes) && AllSnug(placed.nodes) && Fills(placed, acc.nextX, y, parent)
    requires if i > 0 then RowFills(acc, x, y, parent) else acc == Row([], [], x, 0, [], [])
    ensures var row := AddStage(acc, placed, i); AllSnug(row.nodes) && RowFills(row, x, y, parent)
  {
    hide AllSnug, Connect;
    SnugJoin(acc.nodes, placed.nodes);
    var n :| n in placed.nodes && n.parent == parent && n.x == acc.nextX && n.y == y && n.h == placed.height;
    assert Bottom(n) == y + placed.height;
  }

  // ---------- the branches of a block

  /** The branches so far are a column, whose middles are known, and the next one goes below it. */
  predicate Piled(b: Branches, boxes: seq<Node>, y: int, parent: Option<string>) {
    && Column(b.nodes, boxes, y, parent) && Middles(boxes, b.centers, y)
    && b.nextY == (if boxes == [] then y else Bottom(boxes[|boxes| - 1]) + 16)
    && (boxes != [] ==> b.nextY - 16 - y >= 44) && (b.nextY - y) % 2 == 0
  }

  lemma {:induction false} AddBranchSnug(
    acc: Branches, placed: Segment, k: nat, prefix: string, childX: int, y: int, parent: Option<string>,
    boxes: seq<Node>) returns (more: seq<Node>)
    requires AllSnug(acc.nodes) && AllSnug(placed.nodes) && Fills(placed, childX, acc.nextY, parent)
    requires Piled(acc, boxes, y, parent)
    ensures var b := AddBranch(acc, placed, k, prefix, y);
            AllSnug(b.nodes) && Piled(b, more, y, parent) && |more| == |boxes| + 1
  {
    hide AllSnug, SplitEdges, MergeEdges;
    SnugJoin(acc.nodes, placed.nodes);
    var n :| n in placed.nodes && n.parent == parent && n.x == childX && n.y == acc.nextY && n.h == placed.height;
    more := boxes + [n];
    var b := AddBranch(acc, placed, k, prefix, y);
    forall i | 0 <= i < |more|
      ensures more[i] in b.nodes && more[i].parent == parent
      ensures more[i].y == (if i == 0 then y else Bottom(more[i - 1]) + 16)
      ensures 2 * (y + b.centers[i] - more[i].y) == more[i].h
    {
      if i < |boxes| { assert more[i] == boxes[i] && b.centers[i] == acc.centers[i]; }
    }
  }

  lemma {:induction false} BranchesSnug(
    stages: seq<Stage>, n: nat, prefix: string, childX: int, y: int, parent: Option<string>, collapsed: set<string>)
    returns (boxes: seq<Node>)
    requires n <= |stages|
    ensures var b := BranchesUpTo(stages, n, prefix, childX, y, parent, collapsed);
            AllSnug(b.nodes) && Piled(b, boxes, y, parent) && |boxes| == n
    decreases stages, 0, n
  {
    hide LayoutStage, AddBranch, AllSnug, Fills, Child;
    boxes := [];
    if n == 0 {
      NothingSnug();
    } else {
      hide Piled;
      var acc, id := BranchesUpTo(stages, n - 1, prefix, childX, y, parent, collapsed), Child(prefix, stages[n - 1].id);
      var placed := LayoutStage(stages[n - 1], id, childX, acc.nextY, parent, collapsed);
      boxes := BranchesSnug(stages, n - 1, prefix, childX, y, parent, collapsed);
      StageSnug(stages[n - 1], id, childX, acc.nextY, parent, collapsed);
      boxes := AddBranchSnug(acc, placed, n - 1, prefix, childX, y, parent, boxes);
    }
  }

  lemma {:induction false} BlockSnug(
    s: Stage, id: string, x: int, y: int, parent: Option<string>, collapsed: set<string>)
    requires IsParallel(s)
    ensures var seg := LayoutParallelBlock(s, id, x, y, parent, collapsed);
            AllSnug(seg.nodes) && Fills(seg, x, y, parent)
    decreases s, 1
  {
    hide BranchesUpTo, AllSnug, Fills, CloseBlock, Piled;
    var stages, childX := s.parallelStages, x + RAIL_GAP + RAIL_W;
    var boxes := BranchesSnug(stages, |stages|, id, childX, y, parent, collapsed);
    CloseBlockSnug(
      BranchesUpTo(stages, |stages|, id, childX, y, parent, collapsed), |stages|, id, x, y, parent, boxes);
  }

  lemma {:induction false} CloseBlockSnug(
    b: Branches, n: nat, id: string, x: int, y: int, parent: Option<string>, boxes: seq<Node>)
    requires n > 0 && AllSnug(b.nodes) && Piled(b, boxes, y, parent) && |boxes| == n
    ensures var seg := CloseBlock(b, n, id, x, y, parent); AllSnug(seg.nodes) && Fills(seg, x, y, parent)
  {
    var seg := CloseBlock(b, n, id, x, y, parent);
    var split, merge := RailsOf(b, n, id, x, y, parent);
    assert b.nextY - 16 - y >= 44 && (b.nextY - y) % 2 == 0 && Bottom(boxes[n - 1]) == b.nextY - 16;
    hide AllSnug, Column, Middles, CloseBlock, Fills;
    RailsFill(seg, b.nodes, split, merge, x, y, parent);
    RailSnug(b.nodes, seg.nodes, split, boxes);
    RailSnug(b.nodes, seg.nodes, merge, boxes);
    TwoMore(b.nodes, split, merge);
  }

  /** The rails of a block: as high as its branches, at its ends. */
  lemma {:induction false} RailsOf(b: Branches, n: nat, id: string, x: int, y: int, parent: Option<string>)
    returns (split: Node, merge: Node)
    requires n > 0 && b.nextY - 16 - y >= 44
    ensures var seg := CloseBlock(b, n, id, x, y, parent);
            && seg.nodes == b.nodes + [split, merge] && seg.height == split.h == merge.h == b.nextY - 16 - y
            && split.parent == merge.parent == parent && split.x == x && Right(merge) == x + seg.width
            && split.y == merge.y == y && split.data.RailData? && merge.data.RailData?
            && split.data.branchCenters == merge.data.branchCenters == b.centers
  {
    var nodes := CloseBlock(b, n, id, x, y, parent).nodes;
    split, merge := nodes[|b.nodes|], nodes[|b.nodes| + 1];
  }

  lemma {:induction false} RailsFill(
    seg: Segment, some: seq<Node>, split: Node, merge: Node, x: int, y: int, parent: Option<string>)
    requires seg.nodes == some + [split, merge] && seg.height == split.h && seg.height >= 44 && seg.height % 2 == 0
    requires split.parent == merge.parent == parent && split.x == x && split.y == y && Right(merge) == x + seg.width
    ensures Fills(seg, x, y, parent)
  {
    assert split in seg.nodes && merge in seg.nodes;
  }

  lemma {:induction false} RailSnug(some: seq<Node>, nodes: seq<Node>, rail: Node, boxes: seq<Node>)
    requires rail.data.RailData? && boxes != [] && Among(some, nodes) && Column(some, boxes, rail.y, rail.parent)
    requires Middles(boxes, rail.data.branchCenters, rail.y) && Bottom(boxes[|boxes| - 1]) == Bottom(rail)
    ensures Snug(nodes, rail)
  {
    hide Middles;
    assert Column(nodes, boxes, rail.y, rail.parent);
  }

  lemma {:induction false} TwoMore(some: seq<Node>, split: Node, merge: Node)
    requires var nodes := some + [split, merge]; AllSnug(some) && Snug(nodes, split) && Snug(nodes, merge)
    ensures AllSnug(some + [split, merge])
  {
    hide Snug;
    var nodes := some + [split, merge];
    forall n | n in nodes ensures Snug(nodes, n) {
      if n in some { SnugAmong(some, nodes, n); }
    }
  }

  // ---------- the theorem

  /**
   * For every report and collapsed set: in each group, and on the page, the branches of a block stand 16 apart between
   * the ends of its rails, every open group is just as large as what it holds, and every other one has one size.
   */
  lemma {:induction false} NoSpareRoom(stages: seq<Stage>, collapsed: set<string>)
    ensures AllSnug(LayoutReport(stages, collapsed).nodes)
  {
    hide RowUpTo, AllSnug, RowFills;
    NothingSnug();
    RowSnug(stages, |stages|, "root", ROOT_OFFSET, ROOT_OFFSET, None, collapsed);
  }
}
