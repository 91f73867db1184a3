/** The handles of a rail stand where its branches are: each at the vertical middle of the box it is joined to. */
module Rails {
  import opened Geometry
  import opened Layout
  import opened Options
  import opened Placement
  import Flow
  import Text

  /** On the page, the i-th handle of a rail is level with the vertical middle of a box. */
  predicate Level(nodes: seq<Node>, p: nat, q: nat, i: nat) {
    && p < |nodes| && q < |nodes| && nodes[p].data.RailData? && i < |nodes[p].data.branchCenters|
    && Abs(nodes, p).y + nodes[p].data.branchCenters[i] == Abs(nodes, q).y + nodes[q].h / 2
  }

  /** A rail of that id and kind is joined at its i-th handle to a box of the other id, and level with it there. */
  predicate LevelAt(nodes: seq<Node>, p: nat, q: nat, i: nat, rail: string, variant: Variant, box: string) {
    Level(nodes, p, q, i) && nodes[p].id == rail && nodes[p].data.variant == variant && nodes[q].id == box
  }

  ghost predicate Meets(nodes: seq<Node>, rail: string, variant: Variant, handle: string, box: string) {
    exists p: nat, q: nat, i: nat :: LevelAt(nodes, p, q, i, rail, variant, box) && handle == Handle(variant, i)
  }

  function Handle(variant: Variant, i: nat): string {
    (if variant == Split then "s" else "t") + Text.Decimal(i)
  }

  /** An edge that has a numbered handle is level there; between stages a handle is only `out` or `in`. */
  ghost predicate Centred(nodes: seq<Node>, e: Edge) {
    && (e.sourceHandle in {"", "out"} || Meets(nodes, e.source, Split, e.sourceHandle, e.target))
    && (e.targetHandle in {"", "in"} || Meets(nodes, e.target, Merge, e.targetHandle, e.source))
  }

  ghost predicate AllCentred(nodes: seq<Node>, edges: seq<Edge>) {
    forall e | e in edges :: Centred(nodes, e)
  }

  // ---------- drawings side by side and inside a group

  lemma {:induction false} MeetsLeft(
    a: seq<Node>, b: seq<Node>, rail: string, variant: Variant, handle: string, box: string)
    requires Meets(a, rail, variant, handle, box)
    ensures Meets(a + b, rail, variant, handle, box)
  {
    hide Abs, Handle;
    var p: nat, q: nat, i: nat :| LevelAt(a, p, q, i, rail, variant, box) && handle == Handle(variant, i);
    JoinLeft(a, b, p);
    JoinLeft(a, b, q);
    assert LevelAt(a + b, p, q, i, rail, variant, box);
  }

  lemma {:induction false} MeetsRight(
    a: seq<Node>, b: seq<Node>, parent: Option<string>, rail: string, variant: Variant, handle: string, box: string)
    requires Closed(a, parent) && Closed(b, parent) && Meets(b, rail, variant, handle, box)
    ensures Meets(a + b, rail, variant, handle, box)
  {
    hide Abs, Handle, Closed, IsAncestor;
    var p: nat, q: nat, i: nat :| LevelAt(b, p, q, i, rail, variant, box) && handle == Handle(variant, i);
    JoinRight(a, b, p, parent);
    JoinRight(a, b, q, parent);
    assert LevelAt(a + b, |a| + p, |a| + q, i, rail, variant, box);
  }

  lemma {:induction false} MeetsInside(
    group: Node, inner: seq<Node>, rail: string, variant: Variant, handle: string, box: string)
    requires Closed(inner, Some(group.id)) && Meets(inner, rail, variant, handle, box)
    ensures Meets([group] + inner, rail, variant, handle, box)
  {
    hide Abs, Handle, Closed, IsAncestor;
    var p: nat, q: nat, i: nat :| LevelAt(inner, p, q, i, rail, variant, box) && handle == Handle(variant, i);
    Inside(group, inner, p);
    Inside(group, inner, q);
    assert LevelAt([group] + inner, 1 + p, 1 + q, i, rail, variant, box);
  }

  lemma {:induction false} CentredJoin(
    a: seq<Node>, ea: seq<Edge>, b: seq<Node>, eb: seq<Edge>, parent: Option<string>)
    requires Closed(a, parent) && Closed(b, parent) && AllCentred(a, ea) && AllCentred(b, eb)
    ensures AllCentred(a + b, ea + eb)
  {
    hide Meets, Closed;
    forall e | e in ea + eb ensures Centred(a + b, e) {
      if e in ea { CentredLeft(a, b, e); } else { CentredRight(a, b, e, parent); }
    }
  }

  lemma {:induction false} CentredLeft(a: seq<Node>, b: seq<Node>, e: Edge)
    requires Centred(a, e)
    ensures Centred(a + b, e)
  {
    hide Meets;
    if Meets(a, e.source, Split, e.sourceHandle, e.target) {
      MeetsLeft(a, b, e.source, Split, e.sourceHandle, e.target);
    }
    if Meets(a, e.target, Merge, e.targetHandle, e.source) {
      MeetsLeft(a, b, e.target, Merge, e.targetHandle, e.source);
    }
  }

  lemma {:induction false} CentredRight(a: seq<Node>, b: seq<Node>, e: Edge, parent: Option<string>)
    requires Closed(a, parent) && Closed(b, parent) && Centred(b, e)
    ensures Centred(a + b, e)
  {
    hide Meets, Closed;
    if Meets(b, e.source, Split, e.sourceHandle, e.target) {
      MeetsRight(a, b, parent, e.source, Split, e.sourceHandle, e.target);
    }
    if Meets(b, e.target, Merge, e.targetHandle, e.source) {
      MeetsRight(a, b, parent, e.target, Merge, e.targetHandle, e.source);
    }
  }

  lemma {:induction false} CentredInside(group: Node, inner: seq<Node>, edges: seq<Edge>)
    requires Closed(inner, Some(group.id)) && AllCentred(inner, edges)
    ensures AllCentred([group] + inner, edges)
  {
    hide Meets, Closed;
    forall e | e in edges ensures Centred([group] + inner, e) {
      if Meets(inner, e.source, Split, e.sourceHandle, e.target) {
        MeetsInside(group, inner, e.source, Split, e.sourceHandle, e.target);
      }
      if Meets(inner, e.target, Merge, e.targetHandle, e.source) {
        MeetsInside(group, inner, e.target, Merge, e.targetHandle, e.source);
      }
    }
  }

  // ---------- where a part is entered and left

  /** A box of that id is as high as the part it belongs to. */
  predicate Spans(nodes: seq<Node>, q: nat, id: string, y: int, height: int) {
    q < |nodes| && nodes[q].id == id && Abs(nodes, q).y == y && nodes[q].h == height
  }

  /** A part is entered and left at a box as high as the part; its edges are level at their handles. */
  ghost predicate Levelled(seg: Segment, y: int) {
    && AllCentred(seg.nodes, seg.edges) && |seg.entries| == 1 && |seg.exits| == 1
    && (exists q: nat :: Spans(seg.nodes, q, seg.entries[0], y, seg.height))
    && (exists q: nat :: Spans(seg.nodes, q, seg.exits[0], y, seg.height))
  }

  lemma {:induction false} HeadSpans(group: Node, inner: seq<Node>)
    ensures Spans([group] + inner, 0, group.id, group.y, group.h)
  {
    JoinLeft([group], inner, 0);
    SingleNode(group);
  }

  lemma {:induction false} StageLevelled(
    s: Stage, id: string, x: int, y: int, parent: Option<string>, collapsed: set<string>)
    requires ShorterThan(parent, id)
    ensures Levelled(LayoutStage(s, id, x, y, parent, collapsed), y)
    decreases s, 2
  {
    if IsParallel(s) {
      BlockLevelled(s, id, x, y, parent, collapsed);
    } else if IsNested(s) {
      GroupLevelled(s, id, x, y, parent, collapsed);
    } else {
      var seg := LayoutLeaf(s, id, x, y, parent);
      assert seg.nodes == [seg.nodes[0]] + [];
      HeadSpans(seg.nodes[0], []);
      assert Spans(seg.nodes, 0, seg.entries[0], y, seg.height) && Spans(seg.nodes, 0, seg.exits[0], y, seg.height);
    }
  }

  lemma {:induction false} GroupLevelled(
    s: Stage, id: string, x: int, y: int, parent: Option<string>, collapsed: set<string>)
    requires IsNested(s) && ShorterThan(parent, id)
    ensures Levelled(LayoutNestedPipeline(s, id, x, y, parent, collapsed), y)
    decreases s, 1
  {
    hide Centred, Closed, Abs, RowUpTo, Tidy;
    var seg := LayoutNestedPipeline(s, id, x, y, parent, collapsed);
    if IsOpen(s, id, collapsed) {
      var stages, path := s.nestedPipeline.value.stages, NestedPath(id);
      var inner := LayoutStages(stages, path, GROUP_PAD, HEADER_H + GROUP_PAD, Some(id), collapsed);
      RowLevelled(stages, |stages|, path, GROUP_PAD, HEADER_H + GROUP_PAD, Some(id), collapsed);
      RowNeat(stages, |stages|, path, GROUP_PAD, HEADER_H + GROUP_PAD, Some(id), collapsed);
      CentredInside(seg.nodes[0], inner.nodes, inner.edges);
      HeadSpans(seg.nodes[0], inner.nodes);
    } else {
      assert seg.nodes == [seg.nodes[0]] + [];
      HeadSpans(seg.nodes[0], []);
    }
    assert Spans(seg.nodes, 0, seg.entries[0], y, seg.height) && Spans(seg.nodes, 0, seg.exits[0], y, seg.height);
  }

  // ---------- stages side by side

  lemma {:induction false} RowLevelled(
    stages: seq<Stage>, n: nat, path: string, x: int, y: int, parent: Option<string>, collapsed: set<string>)
    requires n <= |stages| && ShorterThan(parent, path)
    ensures var row := RowUpTo(stages, n, path, x, y, parent, collapsed);
            AllCentred(row.nodes, row.edges) && |row.prevExits| == if n == 0 then 0 else 1
    decreases stages, 0, n
  {
    hide LayoutStage, AddStage, Centred, Closed, Tidy, Child, Spans;
    if n > 0 {
      var acc := RowUpTo(stages, n - 1, path, x, y, parent, collapsed);
      var id := Child(path, stages[n - 1].id);
      var placed := LayoutStage(stages[n - 1], id, acc.nextX, y, parent, collapsed);
      assert RowUpTo(stages, n, path, x, y, parent, collapsed) == AddStage(acc, placed, n - 1);
      assert ShorterThan(parent, id) by { ChildIsLonger(parent, path, stages[n - 1].id); }
      RowLevelled(stages, n - 1, path, x, y, parent, collapsed);
      StageLevelled(stages[n - 1], id, acc.nextX, y, parent, collapsed);
      RowNeat(stages, n - 1, path, x, y, parent, collapsed);
      StageNeat(stages[n - 1], id, acc.nextX, y, parent, collapsed);
      AddStageCentred(acc, placed, n - 1, parent);
    }
  }

  lemma {:induction false} ChildIsLonger(parent: Option<string>, path: string, name: string)
    requires ShorterThan(parent, path)
    ensures ShorterThan(parent, Child(path, name))
  {
  }

  lemma {:induction false} AddStageCentred(acc: Row, placed: Segment, i: nat, parent: Option<string>)
    requires Closed(acc.nodes, parent) && Closed(placed.nodes, parent)
    requires AllCentred(acc.nodes, acc.edges) && AllCentred(placed.nodes, placed.edges)
    requires |placed.entries| == 1 && |placed.exits| == 1 && |acc.prevExits| == if i == 0 then 0 else 1
    ensures var row := AddStage(acc, placed, i); AllCentred(row.nodes, row.edges) && |row.prevExits| == 1
  {
    hide Meets, Closed, Connect;
    CentredJoin(acc.nodes, acc.edges, placed.nodes, placed.edges, parent);
    if i == 0 {
      assert acc.prevExits == [];
      Flow.NoConnection(placed.entries);
    } else {
      assert acc.prevExits == [acc.prevExits[0]] && placed.entries == [placed.entries[0]];
      Flow.SingleConnection(acc.prevExits[0], placed.entries[0]);
    }
  }

  // ---------- the branches of a block

  /** Before the rails are drawn: a box level with the i-th handle of a rail that will stand at `y`. */
  predicate LevelWith(b: Branches, q: nat, i: nat, y: int, box: string) {
    q < |b.nodes| && i < |b.centers| && b.nodes[q].id == box && y + b.centers[i] == Abs(b.nodes, q).y + b.nodes[q].h / 2
  }

  ghost predicate WillMeet(b: Branches, y: int, variant: Variant, handle: string, box: string) {
    exists q: nat, i: nat :: LevelWith(b, q, i, y, box) && handle == Handle(variant, i)
  }

  /** An edge of a block before its rails are drawn. */
  ghost predicate WillBeCentred(b: Branches, y: int, prefix: string, e: Edge) {
    || Centred(b.nodes, e)
    || (e.source == prefix + "/split" && e.targetHandle == "" && WillMeet(b, y, Split, e.sourceHandle, e.target))
    || (e.target == prefix + "/merge" && e.sourceHandle == "" && WillMeet(b, y, Merge, e.targetHandle, e.source))
  }

  lemma {:induction false} WillMeetLater(
    acc: Branches, placed: Segment, k: nat, prefix: string, y: int, variant: Variant, handle: string, box: string)
    requires WillMeet(acc, y, variant, handle, box)
    ensures WillMeet(AddBranch(acc, placed, k, prefix, y), y, variant, handle, box)
  {
    hide Abs, Handle, SplitEdges, MergeEdges;
    var q: nat, i: nat :| LevelWith(acc, q, i, y, box) && handle == Handle(variant, i);
    JoinLeft(acc.nodes, placed.nodes, q);
    assert LevelWith(AddBranch(acc, placed, k, prefix, y), q, i, y, box);
  }

  /** The new branch is level with the new handle. */
  lemma {:induction false} NewMeets(
    acc: Branches, placed: Segment, k: nat, prefix: string, y: int, variant: Variant, box: string,
    parent: Option<string>)
    requires Closed(acc.nodes, parent) && Closed(placed.nodes, parent) && |acc.centers| == k
    requires exists q: nat :: Spans(placed.nodes, q, box, acc.nextY, placed.height)
    ensures WillMeet(AddBranch(acc, placed, k, prefix, y), y, variant, Handle(variant, k), box)
  {
    hide Abs, Handle, Closed, SplitEdges, MergeEdges, IsAncestor;
    var q: nat :| Spans(placed.nodes, q, box, acc.nextY, placed.height);
    JoinRight(acc.nodes, placed.nodes, q, parent);
    assert LevelWith(AddBranch(acc, placed, k, prefix, y), |acc.nodes| + q, k, y, box);
  }

  lemma {:induction false} AddBranchCentred(
    acc: Branches, placed: Segment, k: nat, prefix: string, y: int, parent: Option<string>)
    requires Closed(acc.nodes, parent) && Closed(placed.nodes, parent) && |acc.centers| == k
    requires (forall e | e in acc.edges :: WillBeCentred(acc, y, prefix, e)) && Levelled(placed, acc.nextY)
    ensures var b := AddBranch(acc, placed, k, prefix, y);
            |b.centers| == k + 1 && forall e | e in b.edges :: WillBeCentred(b, y, prefix, e)
  {
    var b := AddBranch(acc, placed, k, prefix, y);
    NewMeets(acc, placed, k, prefix, y, Split, placed.entries[0], parent);
    NewMeets(acc, placed, k, prefix, y, Merge, placed.exits[0], parent);
    assert placed.entries == [placed.entries[0]] && placed.exits == [placed.exits[0]];
    Flow.SingleRailEdges(prefix + "/split", placed.entries[0], placed.exits[0], prefix + "/merge", k);
    hide WillMeet, Centred, Closed, SplitEdges, MergeEdges, Spans;
    forall e | e in b.edges ensures WillBeCentred(b, y, prefix, e) {
      if e in acc.edges {
        StaysCentred(acc, placed, k, prefix, y, e);
      } else if e in placed.edges {
        CentredRight(acc.nodes, placed.nodes, e, parent);
      }
    }
  }

  lemma {:induction false} StaysCentred(acc: Branches, placed: Segment, k: nat, prefix: string, y: int, e: Edge)
    requires WillBeCentred(acc, y, prefix, e)
    ensures WillBeCentred(AddBranch(acc, placed, k, prefix, y), y, prefix, e)
  {
    hide WillMeet, Centred, SplitEdges, MergeEdges;
    if Centred(acc.nodes, e) { CentredLeft(acc.nodes, placed.nodes, e); }
    if WillMeet(acc, y, Split, e.sourceHandle, e.target) {
      WillMeetLater(acc, placed, k, prefix, y, Split, e.sourceHandle, e.target);
    }
    if WillMeet(acc, y, Merge, e.targetHandle, e.source) {
      WillMeetLater(acc, placed, k, prefix, y, Merge, e.targetHandle, e.source);
    }
  }

  lemma {:induction false} BranchesCentred(
    stages: seq<Stage>, n: nat, prefix: string, childX: int, y: int, parent: Option<string>, collapsed: set<string>)
    requires n <= |stages| && ShorterThan(parent, prefix)
    ensures var b := BranchesUpTo(stages, n, prefix, childX, y, parent, collapsed);
            |b.centers| == n && forall e | e in b.edges :: WillBeCentred(b, y, prefix, e)
    decreases stages, 0, n
  {
    hide LayoutStage, AddBranch, WillBeCentred, Levelled, Closed, Tidy, Child;
    if n > 0 {
      var acc := BranchesUpTo(stages, n - 1, prefix, childX, y, parent, collapsed);
      var id := Child(prefix, stages[n - 1].id);
      var placed := LayoutStage(stages[n - 1], id, childX, acc.nextY, parent, collapsed);
      assert BranchesUpTo(stages, n, prefix, childX, y, parent, collapsed) == AddBranch(acc, placed, n - 1, prefix, y);
      assert ShorterThan(parent, id) by { ChildIsLonger(parent, prefix, stages[n - 1].id); }
      BranchesCentred(stages, n - 1, prefix, childX, y, parent, collapsed);
      StageLevelled(stages[n - 1], id, childX, acc.nextY, parent, collapsed);
      BranchesNeat(stages, n - 1, prefix, childX, y, parent, collapsed);
      StageNeat(stages[n - 1], id, childX, acc.nextY, parent, collapsed);
      AddBranchCentred(acc, placed, n - 1, prefix, y, parent);
    }
  }

  lemma {:induction false} BlockLevelled(
    s: Stage, id: string, x: int, y: int, parent: Option<string>, collapsed: set<string>)
    requires IsParallel(s) && ShorterThan(parent, id)
    ensures Levelled(LayoutParallelBlock(s, id, x, y, parent, collapsed), y)
    decreases s, 1
  {
    hide BranchesUpTo, WillBeCentred, CloseBlock, Levelled, Closed, Tidy;
    var stages, childX := s.parallelStages, x + RAIL_GAP + RAIL_W;
    BranchesCentred(stages, |stages|, id, childX, y, parent, collapsed);
    BranchesNeat(stages, |stages|, id, childX, y, parent, collapsed);
    CloseBlockLevelled(BranchesUpTo(stages, |stages|, id, childX, y, parent, collapsed), |stages|, id, x, y, parent);
  }

  /** Where the rails of a block stand. */
  lemma {:induction false} RailsAt(nodes: seq<Node>, split: Node, merge: Node, parent: Option<string>)
    requires Closed(nodes, parent) && split.parent == merge.parent == parent
    requires parent != Some(split.id) && parent != Some(merge.id)
    ensures var all := nodes + [split, merge];
            Abs(all, |nodes|).y == split.y && Abs(all, |nodes| + 1).y == merge.y
    ensures Closed([split, merge], parent)
  {
    SingleNode(split);
    SingleNode(merge);
    assert [split] + [merge] == [split, merge];
    JoinClosed([split], [merge], parent);
    JoinLeft([split], [merge], 0);
    JoinRight([split], [merge], 0, parent);
    JoinRight(nodes, [split, merge], 0, parent);
    JoinRight(nodes, [split, merge], 1, parent);
  }

  lemma {:induction false} RailMeets(
    b: Branches, all: seq<Node>, p: nat, y: int, variant: Variant, handle: string, box: string)
    requires |b.nodes| <= p < |all| && all[..|b.nodes|] == b.nodes && Abs(all, p).y == y
    requires all[p].data == RailData(variant, b.centers) && WillMeet(b, y, variant, handle, box)
    ensures Meets(all, all[p].id, variant, handle, box)
  {
    hide Abs, Handle;
    var q: nat, i: nat :| LevelWith(b, q, i, y, box) && handle == Handle(variant, i);
    assert all == b.nodes + all[|b.nodes|..];
    JoinLeft(b.nodes, all[|b.nodes|..], q);
    assert LevelAt(all, p, q, i, all[p].id, variant, box);
  }

  lemma {:induction false} CloseBlockLevelled(
    b: Branches, n: nat, id: string, x: int, y: int, parent: Option<string>)
    requires n > 0 && ShorterThan(parent, id) && Closed(b.nodes, parent)
    requires forall e | e in b.edges :: WillBeCentred(b, y, id, e)
    ensures Levelled(CloseBlock(b, n, id, x, y, parent), y)
  {
    hide Abs, Closed, Meets, WillMeet;
    var seg, m := CloseBlock(b, n, id, x, y, parent), |b.nodes|;
    var split, merge := seg.nodes[m], seg.nodes[m + 1];
    assert seg.nodes == b.nodes + [split, merge];
    RailsAt(b.nodes, split, merge, parent);
    assert Spans(seg.nodes, m, seg.entries[0], y, seg.height) && Spans(seg.nodes, m + 1, seg.exits[0], y, seg.height);
    forall e | e in seg.edges ensures Centred(seg.nodes, e) {
      if Centred(b.nodes, e) {
        CentredLeft(b.nodes, [split, merge], e);
      } else if e.source == id + "/split" && e.targetHandle == "" && WillMeet(b, y, Split, e.sourceHandle, e.target) {
        RailMeets(b, seg.nodes, m, y, Split, e.sourceHandle, e.target);
      } else {
        RailMeets(b, seg.nodes, m + 1, y, Merge, e.targetHandle, e.source);
      }
    }
  }

  // ---------- the theorem

  /**
   * For every report and collapsed set: an edge leaves a split rail by its handle `s<i>`, and enters a merge rail by
   * `t<i>`, exactly at the height of the vertical middle of the box at the other end, on the page.
   */
  lemma HandlesMeetBoxes(stages: seq<Stage>, collapsed: set<string>, e: Edge)
    requires e in LayoutReport(stages, collapsed).edges
    ensures Centred(LayoutReport(stages, collapsed).nodes, e)
  {
    hide RowUpTo, Centred;
    RowLevelled(stages, |stages|, "root", ROOT_OFFSET, ROOT_OFFSET, None, collapsed);
  }
}
