/** Collapsing groups erases exactly the edges that start inside them. */
module Erasure {
  import opened Collapse
  import opened Geometry
  import opened Layout
  import opened Names
  import opened Options
  import opened Placement
  import Flow

  // ---------- the box an edge starts at

  /** Where a stage is left: at its merge rail, which is drawn last, or at its own box, which is drawn first. */
  function ExitAt(s: Stage, seg: Segment): nat {
    if IsParallel(s) && seg.nodes != [] then |seg.nodes| - 1 else 0
  }

  function Shifted(positions: seq<nat>, offset: nat): (r: seq<nat>)
    ensures |r| == |positions| && forall i | 0 <= i < |r| :: r[i] == positions[i] + offset
  {
    seq(|positions|, i requires 0 <= i < |positions| => positions[i] + offset)
  }

  /** For each edge of a stage's drawing the position, among its boxes, of the one the edge starts at. */
  function StageStarts(
    s: Stage, id: string, x: int, y: int, parent: Option<string>, collapsed: set<string>): seq<nat>
    decreases s, 1
  {
    if IsParallel(s) then
      var stages, childX := s.parallelStages, x + RAIL_GAP + RAIL_W;
      var split := |BranchesUpTo(stages, |stages|, id, childX, y, parent, collapsed).nodes|;
      BranchStarts(stages, |stages|, id, childX, y, parent, collapsed, split)
    else if IsNested(s) && IsOpen(s, id, collapsed) then
      var stages := s.nestedPipeline.value.stages;
      Shifted(RowStarts(stages, |stages|, NestedPath(id), GROUP_PAD, HEADER_H + GROUP_PAD, Some(id), collapsed), 1)
    else []
  }

  /** The same for the first branches of a block, whose split rail will be drawn at `split`. */
  function BranchStarts(
    stages: seq<Stage>, n: nat, prefix: string, childX: int, y: int, parent: Option<string>, collapsed: set<string>,
    split: nat): seq<nat>
    requires n <= |stages|
    decreases stages, 0, n
  {
    if n == 0 then []
    else
      var acc := BranchesUpTo(stages, n - 1, prefix, childX, y, parent, collapsed);
      var id := Child(prefix, stages[n - 1].id);
      var placed := LayoutStage(stages[n - 1], id, childX, acc.nextY, parent, collapsed);
      BranchStarts(stages, n - 1, prefix, childX, y, parent, collapsed, split)
      + Shifted(StageStarts(stages[n - 1], id, childX, acc.nextY, parent, collapsed), |acc.nodes|)
      + [split] + [|acc.nodes| + ExitAt(stages[n - 1], placed)]
  }

  /** Where the last of the first stages of a list is left. */
  function RowExit(
    stages: seq<Stage>, n: nat, path: string, x: int, y: int, parent: Option<string>, collapsed: set<string>): nat
    requires 0 < n <= |stages|
  {
    var acc := RowUpTo(stages, n - 1, path, x, y, parent, collapsed);
    var id := Child(path, stages[n - 1].id);
    |acc.nodes| + ExitAt(stages[n - 1], LayoutStage(stages[n - 1], id, acc.nextX, y, parent, collapsed))
  }

  function RowStarts(
    stages: seq<Stage>, n: nat, path: string, x: int, y: int, parent: Option<string>, collapsed: set<string>): seq<nat>
    requires n <= |stages|
    decreases stages, 0, n
  {
    if n == 0 then []
    else
      var acc := RowUpTo(stages, n - 1, path, x, y, parent, collapsed);
      var id := Child(path, stages[n - 1].id);
      RowStarts(stages, n - 1, path, x, y, parent, collapsed)
      + Shifted(StageStarts(stages[n - 1], id, acc.nextX, y, parent, collapsed), |acc.nodes|)
      + if n == 1 then [] else [RowExit(stages, n - 1, path, x, y, parent, collapsed)]
  }

  function ReportStarts(stages: seq<Stage>, collapsed: set<string>): seq<nat> {
    RowStarts(stages, |stages|, "root", ROOT_OFFSET, ROOT_OFFSET, None, collapsed)
  }

  // ---------- keeping the edges that start at a box still shown

  /** The box at a position is shown; one that is not drawn yet is no box inside a group. */
  predicate Shown(nodes: seq<Node>, p: nat, groups: set<string>) {
    p < |nodes| ==> !Hidden(nodes, p, groups)
  }

  function KeepAt(edges: seq<Edge>, starts: seq<nat>, nodes: seq<Node>, groups: set<string>): seq<Edge>
    requires |starts| == |edges|
  {
    if edges == [] then []
    else
      var n := |edges| - 1;
      KeepAt(edges[..n], starts[..n], nodes, groups) + if Shown(nodes, starts[n], groups) then [edges[n]] else []
  }

  lemma {:induction false} KeepAtConcat(
    a: seq<Edge>, p: seq<nat>, b: seq<Edge>, q: seq<nat>, nodes: seq<Node>, groups: set<string>)
    requires |p| == |a| && |q| == |b|
    ensures KeepAt(a + b, p + q, nodes, groups) == KeepAt(a, p, nodes, groups) + KeepAt(b, q, nodes, groups)
  {
    hide Shown;
    if b == [] {
      assert a + b == a && p + q == p;
    } else {
      var n := |b| - 1;
      assert (a + b)[..|a + b| - 1] == a + b[..n] && (p + q)[..|p + q| - 1] == p + q[..n];
      KeepAtConcat(a, p, b[..n], q[..n], nodes, groups);
    }
  }

  lemma {:induction false} KeepAtSame(
    edges: seq<Edge>, p: seq<nat>, nodes: seq<Node>, q: seq<nat>, nodes': seq<Node>, groups: set<string>)
    requires |p| == |q| == |edges|
    requires forall k | 0 <= k < |edges| :: Shown(nodes, p[k], groups) <==> Shown(nodes', q[k], groups)
    ensures KeepAt(edges, p, nodes, groups) == KeepAt(edges, q, nodes', groups)
  {
    hide Shown;
    if edges != [] {
      var n := |edges| - 1;
      KeepAtSame(edges[..n], p[..n], nodes, q[..n], nodes', groups);
    }
  }

  lemma {:induction false} KeepAtNone(edges: seq<Edge>, p: seq<nat>, nodes: seq<Node>, groups: set<string>)
    requires |p| == |edges| && forall k | 0 <= k < |edges| :: !Shown(nodes, p[k], groups)
    ensures KeepAt(edges, p, nodes, groups) == []
  {
    hide Shown;
    if edges != [] {
      var n := |edges| - 1;
      KeepAtNone(edges[..n], p[..n], nodes, groups);
    }
  }

  /** Each edge starts at the box of its source, or at the split rail that is to be drawn at `split`. */
  predicate Anchored(nodes: seq<Node>, edges: seq<Edge>, starts: seq<nat>, split: nat, splitId: string) {
    && |starts| == |edges| && |nodes| <= split
    && forall k | 0 <= k < |edges| ::
         if starts[k] < |nodes| then nodes[starts[k]].id == edges[k].source
         else starts[k] == split && edges[k].source == splitId
  }

  /** In both drawings: the second has exactly the edges of the first that start at a box still shown. */
  predicate Kept(
    edges': seq<Edge>, nodes: seq<Node>, edges: seq<Edge>, starts: seq<nat>, split: nat, splitId: string,
    groups: set<string>)
  {
    Anchored(nodes, edges, starts, split, splitId) && edges' == KeepAt(edges, starts, nodes, groups)
  }

  /** The same where every edge starts at a box drawn. */
  predicate AllKept(edges': seq<Edge>, nodes: seq<Node>, edges: seq<Edge>, starts: seq<nat>, groups: set<string>) {
    && |starts| == |edges| && (forall k | 0 <= k < |edges| :: starts[k] < |nodes|)
    && (forall k | 0 <= k < |edges| :: nodes[starts[k]].id == edges[k].source)
    && edges' == KeepAt(edges, starts, nodes, groups)
  }

  lemma {:induction false} AllKeptIsKept(
    edges': seq<Edge>, nodes: seq<Node>, edges: seq<Edge>, starts: seq<nat>, split: nat, splitId: string,
    groups: set<string>)
    requires AllKept(edges', nodes, edges, starts, groups) && |nodes| <= split
    ensures Kept(edges', nodes, edges, starts, split, splitId, groups)
  {
    hide KeepAt;
  }

  lemma {:induction false} KeptIsAllKept(
    edges': seq<Edge>, nodes: seq<Node>, edges: seq<Edge>, starts: seq<nat>, split: nat, splitId: string,
    groups: set<string>)
    requires Kept(edges', nodes, edges, starts, split, splitId, groups)
    requires forall k | 0 <= k < |edges| :: starts[k] < |nodes|
    ensures AllKept(edges', nodes, edges, starts, groups)
  {
    hide KeepAt;
  }

  /** The edges of one more part beside those before it. */
  lemma {:induction false} JoinKept(
    a': seq<Edge>, nodes: seq<Node>, a: seq<Edge>, p: seq<nat>, split: nat, splitId: string,
    b': seq<Edge>, placed: seq<Node>, b: seq<Edge>, q: seq<nat>, parent: Option<string>, groups: set<string>)
    requires Closed(nodes, parent) && Closed(placed, parent) && |nodes| + |placed| <= split
    requires Kept(a', nodes, a, p, split, splitId, groups) && AllKept(b', placed, b, q, groups)
    ensures Kept(a' + b', nodes + placed, a + b, p + Shifted(q, |nodes|), split, splitId, groups)
  {
    hide KeepAt, Hidden, Closed;
    var all, r := nodes + placed, Shifted(q, |nodes|);
    forall k | 0 <= k < |a| ensures Shown(nodes, p[k], groups) <==> Shown(all, p[k], groups) {
      if p[k] < |nodes| { HiddenJoin(nodes, placed, p[k], parent, groups); }
    }
    forall k | 0 <= k < |b| ensures Shown(placed, q[k], groups) <==> Shown(all, r[k], groups) {
      HiddenJoin(nodes, placed, r[k], parent, groups);
    }
    hide Shown;
    KeepAtSame(a, p, nodes, p, all, groups);
    KeepAtSame(b, q, placed, r, all, groups);
    KeepAtConcat(a, p, b, r, all, groups);
  }

  /** One more edge, from a box still shown or from the split rail. */
  lemma {:induction false} OneMoreKept(
    edges': seq<Edge>, nodes: seq<Node>, edges: seq<Edge>, starts: seq<nat>, split: nat, splitId: string,
    e: Edge, p: nat, groups: set<string>)
    requires Kept(edges', nodes, edges, starts, split, splitId, groups) && Shown(nodes, p, groups)
    requires if p < |nodes| then nodes[p].id == e.source else p == split && e.source == splitId
    ensures Kept(edges' + [e], nodes, edges + [e], starts + [p], split, splitId, groups)
  {
    hide Hidden;
    assert (edges + [e])[..|edges|] == edges && (starts + [p])[..|starts|] == starts;
  }

  // ---------- where parts begin and end

  function EntryOf(s: Stage, id: string): string {
    if IsParallel(s) then id + "/split" else id
  }

  function ExitOf(s: Stage, id: string): string {
    if IsParallel(s) then id + "/merge" else id
  }

  lemma {:induction false} StageEnds(
    s: Stage, id: string, x: int, y: int, parent: Option<string>, collapsed: set<string>)
    ensures var seg := LayoutStage(s, id, x, y, parent, collapsed);
            seg.entries == [EntryOf(s, id)] && seg.exits == [ExitOf(s, id)]
  {
    hide BranchesUpTo, LayoutStages;
  }

  lemma {:induction false} RowEnds(
    stages: seq<Stage>, n: nat, path: string, x: int, y: int, parent: Option<string>, collapsed: set<string>)
    requires n <= |stages|
    ensures RowUpTo(stages, n, path, x, y, parent, collapsed).prevExits ==
            if n == 0 then [] else [ExitOf(stages[n - 1], Child(path, stages[n - 1].id))]
  {
    hide LayoutStage;
    if n > 0 {
      var acc := RowUpTo(stages, n - 1, path, x, y, parent, collapsed);
      StageEnds(stages[n - 1], Child(path, stages[n - 1].id), acc.nextX, y, parent, collapsed);
    }
  }

  /** A part is left at a box that no group inside it hides. */
  predicate ExitShown(nodes: seq<Node>, p: nat, exit: string, groups: set<string>) {
    p < |nodes| && nodes[p].id == exit && !Hidden(nodes, p, groups)
  }

  lemma {:induction false} HeadShown(group: Node, inner: seq<Node>, groups: set<string>)
    ensures ExitShown([group] + inner, 0, group.id, groups)
  {
    JoinLeft([group], inner, 0);
    SingleNode(group);
  }

  /** The rails of a block are shown whatever is collapsed in it. */
  lemma {:induction false} RailsShown(
    nodes: seq<Node>, split: Node, merge: Node, p: nat, parent: Option<string>, groups: set<string>)
    requires Closed(nodes, parent) && split.parent == merge.parent == parent && p <= |nodes| + 1
    requires parent != Some(split.id) && parent != Some(merge.id)
    ensures Shown(nodes + [split, merge], p, groups) <==> Shown(nodes, p, groups)
  {
    SingleNode(split);
    SingleNode(merge);
    hide Closed;
    assert [split] + [merge] == [split, merge];
    JoinClosed([split], [merge], parent);
    HiddenJoin(nodes, [split, merge], p, parent, groups);
    if p >= |nodes| { HiddenJoin([split], [merge], p - |nodes|, parent, groups); }
  }

  // ---------- the induction

  lemma {:induction false} StageKept(
    s: Stage, id: string, x: int, y: int, x': int, y': int,
    parent: Option<string>, some: set<string>, more: set<string>)
    requires ShorterThan(parent, id) && some <= more
    ensures var seg := LayoutStage(s, id, x, y, parent, some);
            && AllKept(LayoutStage(s, id, x', y', parent, more).edges, seg.nodes, seg.edges,
                       StageStarts(s, id, x, y, parent, some), more)
            && ExitShown(seg.nodes, ExitAt(s, seg), ExitOf(s, id), more)
    decreases s, 2
  {
    if IsParallel(s) {
      BlockKept(s, id, x, y, x', y', parent, some, more);
    } else if IsNested(s) {
      GroupKept(s, id, x, y, x', y', parent, some, more);
    } else {
      var seg := LayoutLeaf(s, id, x, y, parent);
      assert seg.nodes == [seg.nodes[0]] + [];
      HeadShown(seg.nodes[0], [], more);
    }
  }

  lemma {:induction false} GroupKept(
    s: Stage, id: string, x: int, y: int, x': int, y': int,
    parent: Option<string>, some: set<string>, more: set<string>)
    requires IsNested(s) && ShorterThan(parent, id) && some <= more
    ensures var seg := LayoutNestedPipeline(s, id, x, y, parent, some);
            && AllKept(LayoutNestedPipeline(s, id, x', y', parent, more).edges, seg.nodes, seg.edges,
                       StageStarts(s, id, x, y, parent, some), more)
            && ExitShown(seg.nodes, 0, id, more)
    decreases s, 1
  {
    hide LayoutStages, RowStarts, Closed, Hidden, KeepAt, Shown;
    var seg := LayoutNestedPipeline(s, id, x, y, parent, some);
    var stages := s.nestedPipeline.value.stages;
    if IsOpen(s, id, some) {
      var inner := LayoutStages(stages, NestedPath(id), GROUP_PAD, HEADER_H + GROUP_PAD, Some(id), some);
      HeadShown(seg.nodes[0], inner.nodes, more);
      InnerNeat(stages, id, some);
      InnerKept(stages, id, some, more);
      var inner' := LayoutStages(stages, NestedPath(id), GROUP_PAD, HEADER_H + GROUP_PAD, Some(id), more);
      InsideKept(seg.nodes[0], inner'.edges, inner.nodes, inner.edges,
                 RowStarts(stages, |stages|, NestedPath(id), GROUP_PAD, HEADER_H + GROUP_PAD, Some(id), some), more);
    } else {
      assert seg.nodes == [seg.nodes[0]] + [];
      HeadShown(seg.nodes[0], [], more);
      NoneKept(seg.nodes, more);
    }
  }

  lemma {:induction false} NoneKept(nodes: seq<Node>, groups: set<string>)
    ensures AllKept([], nodes, [], [], groups)
  {
  }

  /** The edges inside a group, which all go when the group is collapsed. */
  lemma {:induction false} InsideKept(
    group: Node, edges': seq<Edge>, inner: seq<Node>, edges: seq<Edge>, starts: seq<nat>, groups: set<string>)
    requires Closed(inner, Some(group.id)) && AllKept(edges', inner, edges, starts, groups)
    ensures AllKept(if group.id in groups then [] else edges', [group] + inner, edges, Shifted(starts, 1), groups)
  {
    hide KeepAt, Hidden, Closed;
    var all, r := [group] + inner, Shifted(starts, 1);
    forall k | 0 <= k < |edges|
      ensures Shown(all, r[k], groups) <==> group.id !in groups && Shown(inner, starts[k], groups)
    {
      HiddenInside(group, inner, starts[k], groups);
    }
    hide Shown;
    if group.id in groups {
      KeepAtNone(edges, r, all, groups);
    } else {
      KeepAtSame(edges, starts, inner, r, all, groups);
    }
  }

  lemma {:induction false} InnerKept(stages: seq<Stage>, id: string, some: set<string>, more: set<string>)
    requires some <= more
    ensures var inner := LayoutStages(stages, NestedPath(id), GROUP_PAD, HEADER_H + GROUP_PAD, Some(id), some);
            AllKept(LayoutStages(stages, NestedPath(id), GROUP_PAD, HEADER_H + GROUP_PAD, Some(id), more).edges,
                    inner.nodes, inner.edges,
                    RowStarts(stages, |stages|, NestedPath(id), GROUP_PAD, HEADER_H + GROUP_PAD, Some(id), some), more)
    decreases stages, 2
  {
    hide RowUpTo, RowStarts, AllKept;
    RowKept(stages, |stages|, NestedPath(id), GROUP_PAD, HEADER_H + GROUP_PAD, GROUP_PAD, HEADER_H + GROUP_PAD,
            Some(id), some, more);
  }

  lemma {:induction false} ChildIsLonger(parent: Option<string>, path: string, name: string)
    requires ShorterThan(parent, path)
    ensures ShorterThan(parent, Child(path, name))
  {
  }

  lemma {:induction false} RowKept(
    stages: seq<Stage>, n: nat, path: string, x: int, y: int, x': int, y': int,
    parent: Option<string>, some: set<string>, more: set<string>)
    requires n <= |stages| && ShorterThan(parent, path) && some <= more
    ensures var row := RowUpTo(stages, n, path, x, y, parent, some);
            && AllKept(RowUpTo(stages, n, path, x', y', parent, more).edges, row.nodes, row.edges,
                       RowStarts(stages, n, path, x, y, parent, some), more)
            && (n > 0 ==>
                  ExitShown(row.nodes, RowExit(stages, n, path, x, y, parent, some),
                            ExitOf(stages[n - 1], Child(path, stages[n - 1].id)), more))
    decreases stages, 1, n
  {
    hide LayoutStage, StageStarts, Closed, Hidden, KeepAt, AllKept, ExitShown, ExitAt, Connect, Shifted, AddStage,
         Child;
    if n == 0 {
      NoneKept([], more);
    } else {
      var acc' := RowUpTo(stages, n - 1, path, x', y', parent, more);
      var acc := RowUpTo(stages, n - 1, path, x, y, parent, some);
      var s, id := stages[n - 1], Child(path, stages[n - 1].id);
      var placed' := LayoutStage(s, id, acc'.nextX, y', parent, more);
      var placed := LayoutStage(s, id, acc.nextX, y, parent, some);
      assert ShorterThan(parent, id) by { ChildIsLonger(parent, path, s.id); }
      RowKept(stages, n - 1, path, x, y, x', y', parent, some, more);
      StageKept(s, id, acc.nextX, y, acc'.nextX, y', parent, some, more);
      RowPartsClosed(stages, n - 1, path, x, y, parent, some);
      StageEnds(s, id, acc.nextX, y, parent, some);
      StageEnds(s, id, acc'.nextX, y', parent, more);
      RowEnds(stages, n - 1, path, x, y, parent, some);
      RowEnds(stages, n - 1, path, x', y', parent, more);
      var exitAt := if n == 1 then 0 else RowExit(stages, n - 1, path, x, y, parent, some);
      AddStageKept(acc', acc, RowStarts(stages, n - 1, path, x, y, parent, some), exitAt, placed', placed,
                   StageStarts(s, id, acc.nextX, y, parent, some), ExitAt(s, placed), n - 1, parent, more);
    }
  }

  lemma {:induction false} AddStageKept(
    acc': Row, acc: Row, p: seq<nat>, exitAt: nat, placed': Segment, placed: Segment, q: seq<nat>, at: nat, i: nat,
    parent: Option<string>, groups: set<string>)
    requires Closed(acc.nodes, parent) && Closed(placed.nodes, parent)
    requires AllKept(acc'.edges, acc.nodes, acc.edges, p, groups)
    requires AllKept(placed'.edges, placed.nodes, placed.edges, q, groups)
    requires placed'.entries == placed.entries && |placed.entries| == 1 && |placed.exits| == 1
    requires acc'.prevExits == acc.prevExits && |acc.prevExits| == if i == 0 then 0 else 1
    requires i > 0 ==> ExitShown(acc.nodes, exitAt, acc.prevExits[0], groups)
    requires ExitShown(placed.nodes, at, placed.exits[0], groups)
    ensures var row := AddStage(acc, placed, i);
            && AllKept(AddStage(acc', placed', i).edges, row.nodes, row.edges,
                       p + Shifted(q, |acc.nodes|) + if i == 0 then [] else [exitAt], groups)
            && ExitShown(row.nodes, |acc.nodes| + at, placed.exits[0], groups)
  {
    hide KeepAt, Hidden, Closed, Connect;
    var all, m, split := acc.nodes + placed.nodes, |acc.nodes|, |acc.nodes| + |placed.nodes|;
    HiddenJoin(acc.nodes, placed.nodes, m + at, parent, groups);
    AllKeptIsKept(acc'.edges, acc.nodes, acc.edges, p, split, "", groups);
    JoinKept(acc'.edges, acc.nodes, acc.edges, p, split, "",
             placed'.edges, placed.nodes, placed.edges, q, parent, groups);
    var edges, starts := acc.edges + placed.edges, p + Shifted(q, m);
    assert forall k | 0 <= k < |edges| :: starts[k] < |all|;
    if i == 0 {
      Flow.NoConnection(placed.entries);
      assert edges + [] == edges && starts + [] == starts;
      KeptIsAllKept(acc'.edges + placed'.edges, all, edges, starts, split, "", groups);
    } else {
      assert acc.prevExits == [acc.prevExits[0]] && placed.entries == [placed.entries[0]];
      Flow.SingleConnection(acc.prevExits[0], placed.entries[0]);
      HiddenJoin(acc.nodes, placed.nodes, exitAt, parent, groups);
      var e := Connect(acc.prevExits, placed.entries)[0];
      OneMoreKept(acc'.edges + placed'.edges, all, edges, starts, split, "", e, exitAt, groups);
      KeptIsAllKept(acc'.edges + placed'.edges + [e], all, edges + [e], starts + [exitAt], split, "", groups);
    }
  }

  // ---------- the branches of a block

  lemma {:induction false} BlockKept(
    s: Stage, id: string, x: int, y: int, x': int, y': int,
    parent: Option<string>, some: set<string>, more: set<string>)
    requires IsParallel(s) && ShorterThan(parent, id) && some <= more
    ensures var seg := LayoutParallelBlock(s, id, x, y, parent, some);
            && AllKept(LayoutParallelBlock(s, id, x', y', parent, more).edges, seg.nodes, seg.edges,
                       StageStarts(s, id, x, y, parent, some), more)
            && ExitShown(seg.nodes, ExitAt(s, seg), ExitOf(s, id), more)
    decreases s, 1
  {
    hide BranchesUpTo, BranchStarts, Closed, Kept, AllKept, Tidy;
    var stages, n := s.parallelStages, |s.parallelStages|;
    var childX, childX' := x + RAIL_GAP + RAIL_W, x' + RAIL_GAP + RAIL_W;
    var b' := BranchesUpTo(stages, n, id, childX', y', parent, more);
    var b := BranchesUpTo(stages, n, id, childX, y, parent, some);
    BranchesKept(stages, n, id, childX, y, childX', y', parent, some, more, |b.nodes|);
    BranchesNeat(stages, n, id, childX, y, parent, some);
    CloseBlockKept(b', b, BranchStarts(stages, n, id, childX, y, parent, some, |b.nodes|), n, id, x, y, x', y',
                   parent, more);
  }

  lemma {:induction false} CloseBlockKept(
    b': Branches, b: Branches, starts: seq<nat>, n: nat, id: string, x: int, y: int, x': int, y': int,
    parent: Option<string>, groups: set<string>)
    requires ShorterThan(parent, id) && Closed(b.nodes, parent)
    requires Kept(b'.edges, b.nodes, b.edges, starts, |b.nodes|, id + "/split", groups)
    ensures var seg := CloseBlock(b, n, id, x, y, parent);
            && AllKept(CloseBlock(b', n, id, x', y', parent).edges, seg.nodes, seg.edges, starts, groups)
            && ExitShown(seg.nodes, |seg.nodes| - 1, id + "/merge", groups)
  {
    hide KeepAt, Hidden, Closed;
    var seg := CloseBlock(b, n, id, x, y, parent);
    var split, merge := seg.nodes[|b.nodes|], seg.nodes[|b.nodes| + 1];
    assert seg.nodes == b.nodes + [split, merge] && split.id == id + "/split" && merge.id == id + "/merge";
    forall p | 0 <= p <= |b.nodes| + 1 ensures Shown(seg.nodes, p, groups) <==> Shown(b.nodes, p, groups) {
      RailsShown(b.nodes, split, merge, p, parent, groups);
    }
    KeepAtSame(b.edges, starts, b.nodes, starts, seg.nodes, groups);
    assert Shown(seg.nodes, |b.nodes| + 1, groups);
    forall k | 0 <= k < |b.edges| ensures starts[k] < |seg.nodes| && seg.nodes[starts[k]].id == b.edges[k].source {
      if starts[k] < |b.nodes| { assert seg.nodes[starts[k]] == b.nodes[starts[k]]; }
    }
  }

  lemma {:induction false} BranchesKept(
    stages: seq<Stage>, n: nat, prefix: string, childX: int, y: int, childX': int, y': int,
    parent: Option<string>, some: set<string>, more: set<string>, split: nat)
    requires n <= |stages| && ShorterThan(parent, prefix) && some <= more
    requires |BranchesUpTo(stages, n, prefix, childX, y, parent, some).nodes| <= split
    ensures var b := BranchesUpTo(stages, n, prefix, childX, y, parent, some);
            Kept(BranchesUpTo(stages, n, prefix, childX', y', parent, more).edges, b.nodes, b.edges,
                 BranchStarts(stages, n, prefix, childX, y, parent, some, split), split, prefix + "/split", more)
    decreases stages, 1, n
  {
    hide LayoutStage, StageStarts, Closed, Hidden, KeepAt, AllKept, ExitShown, ExitAt, SplitEdges, MergeEdges, Shifted;
    if n == 0 {
      NoneKept([], more);
      AllKeptIsKept([], [], [], [], split, prefix + "/split", more);
    } else {
      var acc' := BranchesUpTo(stages, n - 1, prefix, childX', y', parent, more);
      var acc := BranchesUpTo(stages, n - 1, prefix, childX, y, parent, some);
      var s, id := stages[n - 1], Child(prefix, stages[n - 1].id);
      var placed' := LayoutStage(s, id, childX', acc'.nextY, parent, more);
      var placed := LayoutStage(s, id, childX, acc.nextY, parent, some);
      hide Kept;
      BranchesKept(stages, n - 1, prefix, childX, y, childX', y', parent, some, more, split);
      StageKept(s, id, childX, acc.nextY, childX', acc'.nextY, parent, some, more);
      BranchClosed(stages, n, prefix, childX, y, parent, some);
      StageEnds(s, id, childX, acc.nextY, parent, some);
      StageEnds(s, id, childX', acc'.nextY, parent, more);
      AddBranchKept(acc', acc, BranchStarts(stages, n - 1, prefix, childX, y, parent, some, split), split,
                    placed', placed, StageStarts(s, id, childX, acc.nextY, parent, some), ExitAt(s, placed),
                    n - 1, prefix, y', y, parent, more);
    }
  }

  lemma {:induction false} AddBranchKept(
    acc': Branches, acc: Branches, p: seq<nat>, split: nat, placed': Segment, placed: Segment, q: seq<nat>, at: nat,
    i: nat, prefix: string, y': int, y: int, parent: Option<string>, groups: set<string>)
    requires Closed(acc.nodes, parent) && Closed(placed.nodes, parent) && |acc.nodes| + |placed.nodes| <= split
    requires Kept(acc'.edges, acc.nodes, acc.edges, p, split, prefix + "/split", groups)
    requires AllKept(placed'.edges, placed.nodes, placed.edges, q, groups)
    requires placed'.entries == placed.entries && |placed.entries| == 1
    requires placed'.exits == placed.exits && |placed.exits| == 1
    requires ExitShown(placed.nodes, at, placed.exits[0], groups)
    ensures var b := AddBranch(acc, placed, i, prefix, y);
            Kept(AddBranch(acc', placed', i, prefix, y').edges, b.nodes, b.edges,
                 p + Shifted(q, |acc.nodes|) + [split] + [|acc.nodes| + at], split, prefix + "/split", groups)
  {
    hide KeepAt, Hidden, Closed, Kept, AllKept;
    var all, m, id := acc.nodes + placed.nodes, |acc.nodes|, prefix + "/split";
    assert placed.entries == [placed.entries[0]] && placed.exits == [placed.exits[0]];
    Flow.SingleRailEdges(id, placed.entries[0], placed.exits[0], prefix + "/merge", i);
    var first, last := SplitEdges(id, placed.entries, i), MergeEdges(placed.exits, prefix + "/merge", i);
    hide SplitEdges, MergeEdges;
    JoinKept(acc'.edges, acc.nodes, acc.edges, p, split, id,
             placed'.edges, placed.nodes, placed.edges, q, parent, groups);
    HiddenJoin(acc.nodes, placed.nodes, m + at, parent, groups);
    OneMoreKept(acc'.edges + placed'.edges, all, acc.edges + placed.edges, p + Shifted(q, m), split, id,
                first[0], split, groups);
    OneMoreKept(acc'.edges + placed'.edges + first, all, acc.edges + placed.edges + first, p + Shifted(q, m) + [split],
                split, id, last[0], m + at, groups);
  }

  // ---------- the same by ids

  function Ids(views: seq<View>): set<string> {
    set v | v in views :: v.node.id
  }

  /** The edges whose source is among the ids. */
  function Keep(edges: seq<Edge>, ids: set<string>): seq<Edge> {
    if edges == [] then []
    else Keep(edges[..|edges| - 1], ids) +
         if edges[|edges| - 1].source in ids then [edges[|edges| - 1]] else []
  }

  lemma {:induction false} KeepIsKeepAt(
    edges: seq<Edge>, starts: seq<nat>, nodes: seq<Node>, ids: set<string>, groups: set<string>)
    requires |starts| == |edges|
    requires forall k | 0 <= k < |edges| :: Shown(nodes, starts[k], groups) <==> edges[k].source in ids
    ensures KeepAt(edges, starts, nodes, groups) == Keep(edges, ids)
  {
    hide Shown;
    if edges != [] {
      var n := |edges| - 1;
      KeepIsKeepAt(edges[..n], starts[..n], nodes, ids, groups);
    }
  }

  /** The boxes that are visible are those not hidden. */
  lemma {:induction false} VisibleIds(nodes: seq<Node>, n: nat, groups: set<string>, id: string)
    requires n <= |nodes|
    ensures id in Ids(Visible(nodes, n, groups)) <==>
            exists k :: 0 <= k < n && nodes[k].id == id && !Hidden(nodes, k, groups)
  {
    hide Hidden, Abs;
    if n > 0 {
      VisibleIds(nodes, n - 1, groups, id);
      IdsConcat(Visible(nodes, n - 1, groups), Last(nodes, n - 1, groups));
    }
  }

  lemma {:induction false} IdsConcat(a: seq<View>, b: seq<View>)
    ensures Ids(a + b) == Ids(a) + Ids(b)
  {
  }

  /** Where no two boxes share an id, an edge starts at a box still shown exactly if its source is one of their ids. */
  lemma {:induction false} KeptById(edges: seq<Edge>, starts: seq<nat>, nodes: seq<Node>, groups: set<string>)
    requires UniqueIds(nodes) && |starts| == |edges|
    requires forall k | 0 <= k < |edges| :: starts[k] < |nodes| && nodes[starts[k]].id == edges[k].source
    ensures KeepAt(edges, starts, nodes, groups) == Keep(edges, Ids(AllVisible(nodes, groups)))
  {
    hide KeepAt, Keep, Hidden, Visible, Ids;
    var ids := Ids(AllVisible(nodes, groups));
    forall k | 0 <= k < |edges| ensures Shown(nodes, starts[k], groups) <==> edges[k].source in ids {
      VisibleIds(nodes, |nodes|, groups, edges[k].source);
    }
    KeepIsKeepAt(edges, starts, nodes, ids, groups);
  }

  // ---------- the theorem

  /**
   * Collapsing more groups erases exactly what is inside them. The drawing then has the nodes without a collapsed
   * ancestor, in the same order, with the same ids and parents, none of them larger or further right or down, relative
   * to its group or on the page. It has the edges that start at one of those nodes, unchanged and in the same order; in
   * a well-named report these are the edges whose source is the id of one.
   */
  lemma CollapseErases(stages: seq<Stage>, some: set<string>, more: set<string>)
    requires some <= more
    ensures var before, after := LayoutReport(stages, some), LayoutReport(stages, more);
            && Left(after.nodes, before.nodes, more)
            && after.width <= before.width && after.height <= before.height
            && AllKept(after.edges, before.nodes, before.edges, ReportStarts(stages, some), more)
            && (WellNamed(stages) ==> after.edges == Keep(before.edges, Ids(AllVisible(before.nodes, more))))
  {
    if stages == [] {
      NothingLeft(more);
      NoneKept([], more);
    } else {
      hide Left, RowUpTo, RowStarts, Ids, AllVisible, Keep, KeepAt;
      RowShrinks(stages, |stages|, "root", ROOT_OFFSET, ROOT_OFFSET, ROOT_OFFSET, ROOT_OFFSET, None, some, more);
      RowKept(stages, |stages|, "root", ROOT_OFFSET, ROOT_OFFSET, ROOT_OFFSET, ROOT_OFFSET, None, some, more);
      if WellNamed(stages) {
        var before := LayoutReport(stages, some);
        NodesWellFormed(stages, some);
        KeptById(before.edges, ReportStarts(stages, some), before.nodes, more);
      }
    }
  }
}
