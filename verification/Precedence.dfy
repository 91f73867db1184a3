/** What the edges of a drawing mean: one box leads to another exactly when the pipeline runs it first. */
module Precedence {
  import opened Options
  import opened Layout
  import opened Names
  import Text
  import Flow
  import Geometry
  import Placement

  // ---------- walks along edges

  ghost predicate HasEdge(edges: seq<Edge>, u: string, v: string) {
    exists e :: e in edges && e.source == u && e.target == v
  }

  ghost predicate Walk(edges: seq<Edge>, p: seq<string>) {
    forall i | 0 <= i < |p| - 1 :: HasEdge(edges, p[i], p[i + 1])
  }

  ghost predicate WalkFrom(edges: seq<Edge>, p: seq<string>, u: string, v: string) {
    |p| >= 2 && p[0] == u && p[|p| - 1] == v && Walk(edges, p)
  }

  /** A directed path of at least one edge. */
  ghost predicate Leads(edges: seq<Edge>, u: string, v: string) {
    exists p :: WalkFrom(edges, p, u, v)
  }

  ghost predicate LeadsOrIs(edges: seq<Edge>, u: string, v: string) {
    u == v || Leads(edges, u, v)
  }

  predicate Among(edges: seq<Edge>, all: seq<Edge>) {
    forall e | e in edges :: e in all
  }

  lemma {:induction false} EdgeLeads(edges: seq<Edge>, e: Edge)
    requires e in edges
    ensures Leads(edges, e.source, e.target)
  {
    assert HasEdge(edges, e.source, e.target);
    assert WalkFrom(edges, [e.source, e.target], e.source, e.target);
  }

  lemma {:induction false} LeadsTransitive(edges: seq<Edge>, u: string, v: string, w: string)
    requires Leads(edges, u, v) && Leads(edges, v, w)
    ensures Leads(edges, u, w)
  {
    var p :| WalkFrom(edges, p, u, v);
    var q :| WalkFrom(edges, q, v, w);
    var r := p + q[1..];
    hide HasEdge;
    forall i | 0 <= i < |r| - 1 ensures HasEdge(edges, r[i], r[i + 1]) {
      if i < |p| - 1 {
        assert r[i] == p[i] && r[i + 1] == p[i + 1];
      } else {
        assert r[i] == q[i - (|p| - 1)] && r[i + 1] == q[i - (|p| - 1) + 1];
      }
    }
    assert WalkFrom(edges, r, u, w);
  }

  lemma {:induction false} LeadsAmong(edges: seq<Edge>, all: seq<Edge>, u: string, v: string)
    requires Leads(edges, u, v) && Among(edges, all)
    ensures Leads(all, u, v)
  {
    var p :| WalkFrom(edges, p, u, v);
    forall i | 0 <= i < |p| - 1 ensures HasEdge(all, p[i], p[i + 1]) {
      assert HasEdge(edges, p[i], p[i + 1]);
      var e :| e in edges && e.source == p[i] && e.target == p[i + 1];
      assert e in all;
    }
    assert WalkFrom(all, p, u, v);
  }

  /** A relation that holds of every edge and is transitive holds along every walk. */
  lemma {:induction false} WalkRelates(edges: seq<Edge>, relation: (string, string) -> bool, p: seq<string>)
    requires |p| >= 2 && Walk(edges, p)
    requires forall e | e in edges :: relation(e.source, e.target)
    requires forall u, v, w :: relation(u, v) && relation(v, w) ==> relation(u, w)
    ensures relation(p[0], p[|p| - 1])
  {
    assert HasEdge(edges, p[|p| - 2], p[|p| - 1]);
    if |p| > 2 {
      var q := p[..|p| - 1];
      forall i | 0 <= i < |q| - 1 ensures HasEdge(edges, q[i], q[i + 1]) {
        assert HasEdge(edges, p[i], p[i + 1]);
      }
      WalkRelates(edges, relation, q);
    }
  }

  // ---------- the order in which a pipeline runs

  /** The boxes a stage contributes to its own level: a group counts as one box. */
  ghost function Tops(s: Stage, id: string): set<string>
    decreases s
  {
    if IsParallel(s) then
      {Child(id, "split"), Child(id, "merge")} +
      set k, u | 0 <= k < |s.parallelStages| && u in Tops(s.parallelStages[k], Child(id, s.parallelStages[k].id)) :: u
    else {id}
  }

  /** `u` comes before `v` inside a stage; the rails of a block come before and after its branches. */
  ghost predicate InStage(s: Stage, id: string, collapsed: set<string>, u: string, v: string)
    decreases s, 0
  {
    if IsParallel(s) then
      || (u == Child(id, "split") && v in Tops(s, id) && v != u)
      || (v == Child(id, "merge") && u in Tops(s, id) && u != v)
      || InBranch(s.parallelStages, id, collapsed, u, v)
    else
      IsNested(s) && IsOpen(s, id, collapsed) &&
      InStages(s.nestedPipeline.value.stages, NestedPath(id), collapsed, u, v)
  }

  ghost predicate InBranch(stages: seq<Stage>, path: string, collapsed: set<string>, u: string, v: string)
    decreases stages, 1
  {
    exists k :: 0 <= k < |stages| && InStage(stages[k], Child(path, stages[k].id), collapsed, u, v)
  }

  /** `u` belongs to an earlier stage of the list than `v`. */
  ghost predicate InOrder(stages: seq<Stage>, path: string, u: string, v: string) {
    exists i, j :: 0 <= i < j < |stages| &&
      u in Tops(stages[i], Child(path, stages[i].id)) && v in Tops(stages[j], Child(path, stages[j].id))
  }

  ghost predicate InStages(stages: seq<Stage>, path: string, collapsed: set<string>, u: string, v: string)
    decreases stages, 2
  {
    InOrder(stages, path, u, v) || InBranch(stages, path, collapsed, u, v)
  }

  // ---------- every edge follows that order

  ghost predicate Follows(edges: seq<Edge>, s: Stage, id: string, collapsed: set<string>) {
    forall e | e in edges :: InStage(s, id, collapsed, e.source, e.target)
  }

  ghost predicate EndsOn(seg: Segment, s: Stage, id: string) {
    |seg.entries| == 1 && |seg.exits| == 1 && seg.entries[0] in Tops(s, id) && seg.exits[0] in Tops(s, id)
  }

  lemma {:induction false} StageFollows(
    s: Stage, id: string, x: int, y: int, parent: Option<string>, collapsed: set<string>)
    requires WellNamedStage(s)
    ensures var seg := LayoutStage(s, id, x, y, parent, collapsed);
            Follows(seg.edges, s, id, collapsed) && EndsOn(seg, s, id)
    decreases s, 2
  {
    if IsParallel(s) {
      BlockFollows(s, id, x, y, parent, collapsed);
    } else if IsNested(s) && IsOpen(s, id, collapsed) {
      var stages := s.nestedPipeline.value.stages;
      RowFollows(stages, |stages|, NestedPath(id), GROUP_PAD, HEADER_H + GROUP_PAD, Some(id), collapsed);
      var row := RowUpTo(stages, |stages|, NestedPath(id), GROUP_PAD, HEADER_H + GROUP_PAD, Some(id), collapsed);
      var inner := LayoutStages(stages, NestedPath(id), GROUP_PAD, HEADER_H + GROUP_PAD, Some(id), collapsed);
      assert LayoutNestedPipeline(s, id, x, y, parent, collapsed).edges == inner.edges == row.edges;
    }
  }

  /** An edge of a block drawn so far. */
  ghost predicate BlockEdge(stages: seq<Stage>, prefix: string, collapsed: set<string>, e: Edge) {
    || InBranch(stages, prefix, collapsed, e.source, e.target)
    || (e.source == Child(prefix, "split") && InSomeTops(stages, prefix, e.target))
    || (e.target == Child(prefix, "merge") && InSomeTops(stages, prefix, e.source))
  }

  ghost predicate InSomeTops(stages: seq<Stage>, path: string, u: string) {
    exists k :: 0 <= k < |stages| && u in Tops(stages[k], Child(path, stages[k].id))
  }

  lemma {:induction false} BlockFollows(
    s: Stage, id: string, x: int, y: int, parent: Option<string>, collapsed: set<string>)
    requires WellNamedStage(s) && IsParallel(s)
    ensures var seg := LayoutParallelBlock(s, id, x, y, parent, collapsed);
            Follows(seg.edges, s, id, collapsed) && EndsOn(seg, s, id)
    decreases s, 1
  {
    var stages := s.parallelStages;
    BranchesFollow(stages, |stages|, id, x + RAIL_GAP + RAIL_W, y, parent, collapsed);
    var seg := LayoutParallelBlock(s, id, x, y, parent, collapsed);
    assert Child(id, "split") == id + "/split" && Child(id, "merge") == id + "/merge";
    forall e | e in seg.edges ensures InStage(s, id, collapsed, e.source, e.target) {
      assert BlockEdge(stages, id, collapsed, e);
      if e.source == Child(id, "split") && InSomeTops(stages, id, e.target) {
        BranchTops(s, id, e.target);
      } else if e.target == Child(id, "merge") && InSomeTops(stages, id, e.source) {
        BranchTops(s, id, e.source);
      }
    }
  }

  /** The boxes of the branches belong to the block's level and are none of its rails. */
  lemma {:induction false} BranchTops(s: Stage, id: string, u: string)
    requires IsParallel(s) && WellNamed(s.parallelStages) && InSomeTops(s.parallelStages, id, u)
    ensures u in Tops(s, id) && u != Child(id, "split") && u != Child(id, "merge")
  {
    var k :| 0 <= k < |s.parallelStages| && u in Tops(s.parallelStages[k], Child(id, s.parallelStages[k].id));
    TopsUnder(s.parallelStages[k], Child(id, s.parallelStages[k].id), u);
    assert WellNamedStage(s.parallelStages[k]);
    if u == Child(id, "split") { SiblingsApart(id, s.parallelStages[k].id, "split", u); }
    if u == Child(id, "merge") { SiblingsApart(id, s.parallelStages[k].id, "merge", u); }
  }

  lemma {:induction false} TopsUnder(s: Stage, id: string, u: string)
    requires u in Tops(s, id)
    ensures Under(id, u)
    decreases s
  {
    if IsParallel(s) && u != Child(id, "split") && u != Child(id, "merge") {
      var k :| 0 <= k < |s.parallelStages| && u in Tops(s.parallelStages[k], Child(id, s.parallelStages[k].id));
      TopsUnder(s.parallelStages[k], Child(id, s.parallelStages[k].id), u);
      UnderChild(id, s.parallelStages[k].id, u);
    } else if IsParallel(s) {
      assert id + "/" <= Child(id, "split") && id + "/" <= Child(id, "merge");
    }
  }

  lemma {:induction false} AddBranchFollows(
    acc: Branches, placed: Segment, stages: seq<Stage>, i: nat, prefix: string, y: int, collapsed: set<string>)
    requires i < |stages|
    requires forall e | e in acc.edges :: BlockEdge(stages, prefix, collapsed, e)
    requires Follows(placed.edges, stages[i], Child(prefix, stages[i].id), collapsed)
    requires EndsOn(placed, stages[i], Child(prefix, stages[i].id))
    ensures forall e | e in AddBranch(acc, placed, i, prefix, y).edges :: BlockEdge(stages, prefix, collapsed, e)
  {
    assert placed.entries == [placed.entries[0]] && placed.exits == [placed.exits[0]];
    Flow.SingleRailEdges(prefix + "/split", placed.entries[0], placed.exits[0], prefix + "/merge", i);
    assert Child(prefix, "split") == prefix + "/split" && Child(prefix, "merge") == prefix + "/merge";
    hide Tops, InStage, SplitEdges, MergeEdges;
    assert InSomeTops(stages, prefix, placed.entries[0]) && InSomeTops(stages, prefix, placed.exits[0]);
    forall e | e in placed.edges ensures InBranch(stages, prefix, collapsed, e.source, e.target) {
      assert InStage(stages[i], Child(prefix, stages[i].id), collapsed, e.source, e.target);
    }
    hide InBranch, InSomeTops;
  }

  lemma {:induction false} BranchesFollow(
    stages: seq<Stage>, n: nat, prefix: string, childX: int, y: int,
    parent: Option<string>, collapsed: set<string>)
    requires n <= |stages| && WellNamed(stages)
    ensures forall e | e in BranchesUpTo(stages, n, prefix, childX, y, parent, collapsed).edges ::
              BlockEdge(stages, prefix, collapsed, e)
    decreases stages, 0, n
  {
    if n > 0 {
      var acc := BranchesUpTo(stages, n - 1, prefix, childX, y, parent, collapsed);
      var id := Child(prefix, stages[n - 1].id);
      BranchesFollow(stages, n - 1, prefix, childX, y, parent, collapsed);
      assert WellNamedStage(stages[n - 1]);
      StageFollows(stages[n - 1], id, childX, acc.nextY, parent, collapsed);
      hide LayoutStage, Follows, EndsOn, BlockEdge, AddBranch, WellNamed, WellNamedStage;
      AddBranchFollows(acc, LayoutStage(stages[n - 1], id, childX, acc.nextY, parent, collapsed),
                       stages, n - 1, prefix, y, collapsed);
    }
  }

  lemma {:induction false} RowFollows(
    stages: seq<Stage>, n: nat, path: string, x: int, y: int, parent: Option<string>, collapsed: set<string>)
    requires n <= |stages| && WellNamed(stages)
    ensures var row := RowUpTo(stages, n, path, x, y, parent, collapsed);
            && (forall e | e in row.edges :: InStages(stages, path, collapsed, e.source, e.target))
            && (n == 0 ==> row.prevExits == [])
            && (n > 0 ==> |row.prevExits| == 1 &&
                          row.prevExits[0] in Tops(stages[n - 1], Child(path, stages[n - 1].id)))
    decreases stages, 0, n
  {
    if n > 0 {
      assert WellNamedStage(stages[n - 1]);
      hide LayoutStage, Tops, InStage, WellNamed, WellNamedStage, Connect, Child;
      var acc := RowUpTo(stages, n - 1, path, x, y, parent, collapsed);
      var id := Child(path, stages[n - 1].id);
      var placed := LayoutStage(stages[n - 1], id, acc.nextX, y, parent, collapsed);
      assert RowUpTo(stages, n, path, x, y, parent, collapsed) == AddStage(acc, placed, n - 1);
      RowFollows(stages, n - 1, path, x, y, parent, collapsed);
      StageFollows(stages[n - 1], id, acc.nextX, y, parent, collapsed);
      hide RowUpTo;
      assert placed.entries == [placed.entries[0]];
      if n == 1 {
        Flow.NoConnection(placed.entries);
      } else {
        assert acc.prevExits == [acc.prevExits[0]];
        Flow.SingleConnection(acc.prevExits[0], placed.entries[0]);
        assert InOrder(stages, path, acc.prevExits[0], placed.entries[0]);
      }
      forall e | e in placed.edges ensures InStages(stages, path, collapsed, e.source, e.target) {
        assert InStage(stages[n - 1], id, collapsed, e.source, e.target);
      }
    }
  }

  // ---------- the order is transitive

  lemma {:induction false} InStageUnder(s: Stage, id: string, collapsed: set<string>, u: string, v: string)
    requires InStage(s, id, collapsed, u, v)
    ensures Under(id, u) && Under(id, v)
    decreases s, 0
  {
    if IsParallel(s) {
      if u == Child(id, "split") && v in Tops(s, id) {
        TopsUnder(s, id, u);
        TopsUnder(s, id, v);
      } else if v == Child(id, "merge") && u in Tops(s, id) {
        TopsUnder(s, id, u);
        TopsUnder(s, id, v);
      } else {
        var k := BranchOf(s.parallelStages, id, collapsed, u, v);
        UnderChild(id, s.parallelStages[k].id, u);
        UnderChild(id, s.parallelStages[k].id, v);
      }
    } else {
      InStagesUnder(s.nestedPipeline.value.stages, NestedPath(id), collapsed, u, v);
      assert NestedPath(id) == Child(id, "nested");
      UnderChild(id, "nested", u);
      UnderChild(id, "nested", v);
    }
  }

  /** The branch that relates two boxes; both lie under it. */
  lemma {:induction false} BranchOf(stages: seq<Stage>, path: string, collapsed: set<string>, u: string, v: string)
    returns (k: nat)
    requires InBranch(stages, path, collapsed, u, v)
    ensures k < |stages| && InStage(stages[k], Child(path, stages[k].id), collapsed, u, v)
    ensures Under(Child(path, stages[k].id), u) && Under(Child(path, stages[k].id), v)
    decreases stages, 1
  {
    k :| 0 <= k < |stages| && InStage(stages[k], Child(path, stages[k].id), collapsed, u, v);
    InStageUnder(stages[k], Child(path, stages[k].id), collapsed, u, v);
  }

  lemma {:induction false} InStagesUnder(
    stages: seq<Stage>, path: string, collapsed: set<string>, u: string, v: string)
    requires InStages(stages, path, collapsed, u, v)
    ensures Under(path, u) && Under(path, v) && u != path && v != path
    decreases stages, 2
  {
    if InOrder(stages, path, u, v) {
      var i, j :| 0 <= i < j < |stages| &&
        u in Tops(stages[i], Child(path, stages[i].id)) && v in Tops(stages[j], Child(path, stages[j].id));
      TopsUnder(stages[i], Child(path, stages[i].id), u);
      TopsUnder(stages[j], Child(path, stages[j].id), v);
      UnderChild(path, stages[i].id, u);
      UnderChild(path, stages[j].id, v);
    } else {
      var k := BranchOf(stages, path, collapsed, u, v);
      UnderChild(path, stages[k].id, u);
      UnderChild(path, stages[k].id, v);
    }
  }

  /** Two siblings that both have an id under them are the same. */
  lemma {:induction false} SameSibling(stages: seq<Stage>, path: string, i: nat, j: nat, u: string)
    requires WellNamed(stages) && i < |stages| && j < |stages|
    requires Under(Child(path, stages[i].id), u) && Under(Child(path, stages[j].id), u)
    ensures i == j
  {
    assert WellNamedStage(stages[i]) && WellNamedStage(stages[j]);
    SiblingsApart(path, stages[i].id, stages[j].id, u);
  }

  /** A box under a branch stands on the block's level exactly when it stands on the branch's. */
  lemma {:induction false} TopsOfBranch(s: Stage, id: string, k: nat, u: string)
    requires IsParallel(s) && WellNamed(s.parallelStages) && k < |s.parallelStages|
    requires Under(Child(id, s.parallelStages[k].id), u)
    ensures u in Tops(s, id) <==> u in Tops(s.parallelStages[k], Child(id, s.parallelStages[k].id))
    ensures u != Child(id, "split") && u != Child(id, "merge")
  {
    var stages := s.parallelStages;
    assert WellNamedStage(stages[k]);
    if u == Child(id, "split") { SiblingsApart(id, stages[k].id, "split", u); }
    if u == Child(id, "merge") { SiblingsApart(id, stages[k].id, "merge", u); }
    if u in Tops(s, id) {
      var m :| 0 <= m < |stages| && u in Tops(stages[m], Child(id, stages[m].id));
      TopsUnder(stages[m], Child(id, stages[m].id), u);
      SameSibling(stages, id, k, m, u);
    }
  }

  /** A stage's order relates boxes of its own level only with each other. */
  lemma {:induction false} SameLevel(s: Stage, id: string, collapsed: set<string>, u: string, v: string)
    requires WellNamedStage(s) && InStage(s, id, collapsed, u, v)
    ensures u in Tops(s, id) <==> v in Tops(s, id)
    decreases s
  {
    if IsParallel(s) {
      if InBranch(s.parallelStages, id, collapsed, u, v) {
        var k := BranchOf(s.parallelStages, id, collapsed, u, v);
        TopsOfBranch(s, id, k, u);
        TopsOfBranch(s, id, k, v);
        assert WellNamedStage(s.parallelStages[k]);
        SameLevel(s.parallelStages[k], Child(id, s.parallelStages[k].id), collapsed, u, v);
      }
    } else {
      InStagesUnder(s.nestedPipeline.value.stages, NestedPath(id), collapsed, u, v);
      assert NestedPath(id) == Child(id, "nested");
      UnderChild(id, "nested", u);
      UnderChild(id, "nested", v);
    }
  }

  lemma {:induction false} StageTransitive(
    s: Stage, id: string, collapsed: set<string>, u: string, v: string, w: string)
    requires WellNamedStage(s) && InStage(s, id, collapsed, u, v) && InStage(s, id, collapsed, v, w)
    ensures InStage(s, id, collapsed, u, w)
    decreases s, 0
  {
    if IsParallel(s) {
      BlockTransitive(s, id, collapsed, u, v, w);
    } else {
      StagesTransitive(s.nestedPipeline.value.stages, NestedPath(id), collapsed, u, v, w);
    }
  }

  lemma {:induction false} BlockTransitive(
    s: Stage, id: string, collapsed: set<string>, u: string, v: string, w: string)
    requires IsParallel(s) && WellNamedStage(s) && InStage(s, id, collapsed, u, v) && InStage(s, id, collapsed, v, w)
    ensures InStage(s, id, collapsed, u, w)
    decreases s, 0, 0
  {
    var stages, split, merge := s.parallelStages, Child(id, "split"), Child(id, "merge");
    assert split[|id| + 1] == 's' && merge[|id| + 1] == 'm';
    SameLevel(s, id, collapsed, u, v);
    SameLevel(s, id, collapsed, v, w);
    if InBranch(stages, id, collapsed, v, w) {
      var m := BranchOf(stages, id, collapsed, v, w);
      TopsOfBranch(s, id, m, v);
      TopsOfBranch(s, id, m, w);
      if InBranch(stages, id, collapsed, u, v) {
        var k := BranchOf(stages, id, collapsed, u, v);
        SameSibling(stages, id, k, m, v);
        assert WellNamedStage(stages[k]);
        StageTransitive(stages[k], Child(id, stages[k].id), collapsed, u, v, w);
      }
    } else if InBranch(stages, id, collapsed, u, v) {
      var k := BranchOf(stages, id, collapsed, u, v);
      TopsOfBranch(s, id, k, u);
      TopsOfBranch(s, id, k, v);
    }
  }

  lemma {:induction false} StagesTransitive(
    stages: seq<Stage>, path: string, collapsed: set<string>, u: string, v: string, w: string)
    requires WellNamed(stages) && InStages(stages, path, collapsed, u, v) && InStages(stages, path, collapsed, v, w)
    ensures InStages(stages, path, collapsed, u, w)
    decreases stages, 0
  {
    if InOrder(stages, path, u, v) {
      var i, j :| 0 <= i < j < |stages| &&
        u in Tops(stages[i], Child(path, stages[i].id)) && v in Tops(stages[j], Child(path, stages[j].id));
      TopsUnder(stages[j], Child(path, stages[j].id), v);
      if InOrder(stages, path, v, w) {
        var m, k :| 0 <= m < k < |stages| &&
          v in Tops(stages[m], Child(path, stages[m].id)) && w in Tops(stages[k], Child(path, stages[k].id));
        TopsUnder(stages[m], Child(path, stages[m].id), v);
        SameSibling(stages, path, j, m, v);
      } else {
        var m := BranchOf(stages, path, collapsed, v, w);
        SameSibling(stages, path, j, m, v);
        assert WellNamedStage(stages[m]);
        SameLevel(stages[m], Child(path, stages[m].id), collapsed, v, w);
      }
      assert InOrder(stages, path, u, w);
    } else {
      var i := BranchOf(stages, path, collapsed, u, v);
      assert WellNamedStage(stages[i]);
      if InOrder(stages, path, v, w) {
        var m, k :| 0 <= m < k < |stages| &&
          v in Tops(stages[m], Child(path, stages[m].id)) && w in Tops(stages[k], Child(path, stages[k].id));
        TopsUnder(stages[m], Child(path, stages[m].id), v);
        SameSibling(stages, path, i, m, v);
        SameLevel(stages[i], Child(path, stages[i].id), collapsed, u, v);
        assert InOrder(stages, path, u, w);
      } else {
        var m := BranchOf(stages, path, collapsed, v, w);
        SameSibling(stages, path, i, m, v);
        StageTransitive(stages[i], Child(path, stages[i].id), collapsed, u, v, w);
      }
    }
  }

  // ---------- the order is realised by edges

  lemma {:induction false} LeadsOrIsTransitive(edges: seq<Edge>, u: string, v: string, w: string)
    requires LeadsOrIs(edges, u, v) && LeadsOrIs(edges, v, w)
    ensures LeadsOrIs(edges, u, w)
    ensures Leads(edges, u, v) || Leads(edges, v, w) ==> Leads(edges, u, w)
  {
    if u != v && v != w { LeadsTransitive(edges, u, v, w); }
  }

  lemma {:induction false} LeadsOrIsAmong(edges: seq<Edge>, all: seq<Edge>, u: string, v: string)
    requires LeadsOrIs(edges, u, v) && Among(edges, all)
    ensures LeadsOrIs(all, u, v)
  {
    if u != v { LeadsAmong(edges, all, u, v); }
  }

  /** From the entry of a part every box of its level is reached, and from every one its exit. */
  ghost predicate Spans(seg: Segment, s: Stage, id: string) {
    && |seg.entries| == 1 && |seg.exits| == 1
    && forall u | u in Tops(s, id) :: LeadsOrIs(seg.edges, seg.entries[0], u) && LeadsOrIs(seg.edges, u, seg.exits[0])
  }

  ghost predicate Realises(seg: Segment, s: Stage, id: string, collapsed: set<string>) {
    forall u, v | InStage(s, id, collapsed, u, v) :: Leads(seg.edges, u, v)
  }

  lemma {:induction false} StageRealises(
    s: Stage, id: string, x: int, y: int, parent: Option<string>, collapsed: set<string>)
    ensures var seg := LayoutStage(s, id, x, y, parent, collapsed);
            Spans(seg, s, id) && Realises(seg, s, id, collapsed)
    decreases s, 2
  {
    var seg := LayoutStage(s, id, x, y, parent, collapsed);
    if IsParallel(s) {
      BlockSpans(s, id, x, y, parent, collapsed);
      BlockRealises(s, id, x, y, parent, collapsed);
    } else if IsNested(s) && IsOpen(s, id, collapsed) {
      var stages := s.nestedPipeline.value.stages;
      var inner := LayoutStages(stages, NestedPath(id), GROUP_PAD, HEADER_H + GROUP_PAD, Some(id), collapsed);
      assert seg == LayoutNestedPipeline(s, id, x, y, parent, collapsed);
      assert seg.edges == inner.edges;
      forall u, v | InStage(s, id, collapsed, u, v) ensures Leads(seg.edges, u, v) {
        RowRealises(stages, NestedPath(id), GROUP_PAD, HEADER_H + GROUP_PAD, Some(id), collapsed, u, v);
      }
    }
  }

  /** The part drawn for the k-th branch of a block. */
  ghost function BranchSegment(
    stages: seq<Stage>, k: nat, prefix: string, childX: int, y: int,
    parent: Option<string>, collapsed: set<string>): Segment
    requires k < |stages|
  {
    LayoutStage(stages[k], Child(prefix, stages[k].id), childX,
                BranchesUpTo(stages, k, prefix, childX, y, parent, collapsed).nextY, parent, collapsed)
  }

  /** All edges of a branch are in the block, and so are the two that tie it to the rails. */
  ghost predicate Tied(edges: seq<Edge>, seg: Segment, prefix: string, k: nat) {
    && |seg.entries| == 1 && |seg.exits| == 1
    && Among(seg.edges, edges)
    && Edge(Child(prefix, "split"), seg.entries[0], "s" + Text.Decimal(k), "") in edges
    && Edge(seg.exits[0], Child(prefix, "merge"), "", "t" + Text.Decimal(k)) in edges
  }

  lemma {:induction false} LastTied(acc: Branches, seg: Segment, k: nat, prefix: string, y: int)
    requires |seg.entries| == 1 && |seg.exits| == 1
    ensures Tied(AddBranch(acc, seg, k, prefix, y).edges, seg, prefix, k)
  {
    assert seg.entries == [seg.entries[0]] && seg.exits == [seg.exits[0]];
    Flow.SingleRailEdges(prefix + "/split", seg.entries[0], seg.exits[0], prefix + "/merge", k);
    assert Child(prefix, "split") == prefix + "/split" && Child(prefix, "merge") == prefix + "/merge";
  }

  lemma {:induction false} StaysTied(
    acc: Branches, placed: Segment, i: nat, prefix: string, y: int, seg: Segment, k: nat)
    requires Tied(acc.edges, seg, prefix, k)
    ensures Tied(AddBranch(acc, placed, i, prefix, y).edges, seg, prefix, k)
  {
    hide SplitEdges, MergeEdges;
  }

  lemma {:induction false} BranchTied(
    stages: seq<Stage>, n: nat, k: nat, prefix: string, childX: int, y: int,
    parent: Option<string>, collapsed: set<string>)
    requires k < n <= |stages|
    requires var seg := BranchSegment(stages, k, prefix, childX, y, parent, collapsed);
             |seg.entries| == 1 && |seg.exits| == 1
    ensures Tied(BranchesUpTo(stages, n, prefix, childX, y, parent, collapsed).edges,
                 BranchSegment(stages, k, prefix, childX, y, parent, collapsed), prefix, k)
    decreases n
  {
    hide LayoutStage, AddBranch, Tied, Child;
    var acc := BranchesUpTo(stages, n - 1, prefix, childX, y, parent, collapsed);
    var last := BranchSegment(stages, n - 1, prefix, childX, y, parent, collapsed);
    assert BranchesUpTo(stages, n, prefix, childX, y, parent, collapsed) == AddBranch(acc, last, n - 1, prefix, y);
    hide BranchesUpTo, BranchSegment;
    if k == n - 1 {
      LastTied(acc, last, k, prefix, y);
    } else {
      BranchTied(stages, n - 1, k, prefix, childX, y, parent, collapsed);
      StaysTied(acc, last, n - 1, prefix, y, BranchSegment(stages, k, prefix, childX, y, parent, collapsed), k);
    }
  }

  lemma {:induction false} BlockTied(
    s: Stage, id: string, x: int, y: int, parent: Option<string>, collapsed: set<string>, k: nat)
    returns (seg: Segment)
    requires IsParallel(s) && k < |s.parallelStages|
    ensures var branch := s.parallelStages[k];
            && Spans(seg, branch, Child(id, branch.id)) && Realises(seg, branch, Child(id, branch.id), collapsed)
    ensures Tied(LayoutParallelBlock(s, id, x, y, parent, collapsed).edges, seg, id, k)
    decreases s, 0
  {
    var stages, childX := s.parallelStages, x + RAIL_GAP + RAIL_W;
    seg := BranchSegment(stages, k, id, childX, y, parent, collapsed);
    StageRealises(stages[k], Child(id, stages[k].id), childX,
                  BranchesUpTo(stages, k, id, childX, y, parent, collapsed).nextY, parent, collapsed);
    BranchTied(stages, |stages|, k, id, childX, y, parent, collapsed);
  }

  lemma {:induction false} BlockSpans(
    s: Stage, id: string, x: int, y: int, parent: Option<string>, collapsed: set<string>)
    requires IsParallel(s)
    ensures Spans(LayoutParallelBlock(s, id, x, y, parent, collapsed), s, id)
    decreases s, 1
  {
    var block := LayoutParallelBlock(s, id, x, y, parent, collapsed);
    var E, split, merge := block.edges, Child(id, "split"), Child(id, "merge");
    assert split == id + "/split" && merge == id + "/merge";
    forall k | 0 <= k < |s.parallelStages|
      ensures Leads(E, split, merge)
      ensures forall u | u in Tops(s.parallelStages[k], Child(id, s.parallelStages[k].id)) ::
                Leads(E, split, u) && Leads(E, u, merge)
    {
      var seg := BlockTied(s, id, x, y, parent, collapsed, k);
      var first := Edge(split, seg.entries[0], "s" + Text.Decimal(k), "");
      var last := Edge(seg.exits[0], merge, "", "t" + Text.Decimal(k));
      EdgeLeads(E, first);
      EdgeLeads(E, last);
      hide LayoutParallelBlock, Leads;
      forall u | u in Tops(s.parallelStages[k], Child(id, s.parallelStages[k].id))
        ensures Leads(E, split, u) && Leads(E, u, merge)
      {
        LeadsOrIsAmong(seg.edges, E, seg.entries[0], u);
        LeadsOrIsAmong(seg.edges, E, u, seg.exits[0]);
        LeadsOrIsTransitive(E, split, seg.entries[0], u);
        LeadsOrIsTransitive(E, u, seg.exits[0], merge);
      }
      BranchHasTop(s.parallelStages[k], Child(id, s.parallelStages[k].id));
      var u :| u in Tops(s.parallelStages[k], Child(id, s.parallelStages[k].id));
      LeadsTransitive(E, split, u, merge);
    }
    assert Leads(E, split, merge) by { assert 0 < |s.parallelStages|; var k := 0; assert 0 <= k < |s.parallelStages|; }
  }

  lemma {:induction false} BranchHasTop(s: Stage, id: string)
    ensures Tops(s, id) != {}
  {
    if IsParallel(s) { assert Child(id, "split") in Tops(s, id); } else { assert id in Tops(s, id); }
  }

  lemma {:induction false} BlockRealises(
    s: Stage, id: string, x: int, y: int, parent: Option<string>, collapsed: set<string>)
    requires IsParallel(s)
    requires Spans(LayoutParallelBlock(s, id, x, y, parent, collapsed), s, id)
    ensures Realises(LayoutParallelBlock(s, id, x, y, parent, collapsed), s, id, collapsed)
    decreases s, 1
  {
    var block := LayoutParallelBlock(s, id, x, y, parent, collapsed);
    assert block.entries[0] == Child(id, "split") && block.exits[0] == Child(id, "merge");
    forall u, v | InStage(s, id, collapsed, u, v) ensures Leads(block.edges, u, v) {
      if InBranch(s.parallelStages, id, collapsed, u, v) {
        var k: nat :| k < |s.parallelStages| &&
          InStage(s.parallelStages[k], Child(id, s.parallelStages[k].id), collapsed, u, v);
        var seg := BlockTied(s, id, x, y, parent, collapsed, k);
        LeadsAmong(seg.edges, block.edges, u, v);
      }
    }
  }

  /** The part drawn for the k-th stage of a list. */
  ghost function RowSegment(
    stages: seq<Stage>, k: nat, path: string, x: int, y: int, parent: Option<string>, collapsed: set<string>): Segment
    requires k < |stages|
  {
    LayoutStage(stages[k], Child(path, stages[k].id), RowUpTo(stages, k, path, x, y, parent, collapsed).nextX, y,
                parent, collapsed)
  }

  lemma {:induction false} RowSegmentRealises(
    stages: seq<Stage>, k: nat, path: string, x: int, y: int, parent: Option<string>, collapsed: set<string>)
    requires k < |stages|
    ensures var seg := RowSegment(stages, k, path, x, y, parent, collapsed);
            && Spans(seg, stages[k], Child(path, stages[k].id))
            && Realises(seg, stages[k], Child(path, stages[k].id), collapsed)
    decreases stages, 0
  {
    StageRealises(stages[k], Child(path, stages[k].id),
                  RowUpTo(stages, k, path, x, y, parent, collapsed).nextX, y, parent, collapsed);
  }

  lemma {:induction false} RowHas(
    stages: seq<Stage>, n: nat, k: nat, path: string, x: int, y: int, parent: Option<string>, collapsed: set<string>)
    requires k < n <= |stages|
    ensures Among(RowSegment(stages, k, path, x, y, parent, collapsed).edges,
                  RowUpTo(stages, n, path, x, y, parent, collapsed).edges)
    decreases n
  {
    if k < n - 1 {
      RowHas(stages, n - 1, k, path, x, y, parent, collapsed);
    }
    hide LayoutStage, Connect;
  }

  /** The exit of each stage is tied to the entry of the next. */
  lemma {:induction false} RowTied(
    stages: seq<Stage>, n: nat, k: nat, path: string, x: int, y: int, parent: Option<string>, collapsed: set<string>)
    requires k + 1 < n <= |stages|
    requires |RowSegment(stages, k, path, x, y, parent, collapsed).exits| == 1
    requires |RowSegment(stages, k + 1, path, x, y, parent, collapsed).entries| == 1
    ensures HasEdge(RowUpTo(stages, n, path, x, y, parent, collapsed).edges,
                    RowSegment(stages, k, path, x, y, parent, collapsed).exits[0],
                    RowSegment(stages, k + 1, path, x, y, parent, collapsed).entries[0])
    decreases n
  {
    var row := RowUpTo(stages, n, path, x, y, parent, collapsed);
    var acc := RowUpTo(stages, n - 1, path, x, y, parent, collapsed);
    var here := RowSegment(stages, k, path, x, y, parent, collapsed);
    var next := RowSegment(stages, k + 1, path, x, y, parent, collapsed);
    if k + 1 == n - 1 {
      assert acc.prevExits == [here.exits[0]] && next.entries == [next.entries[0]];
      Flow.SingleConnection(here.exits[0], next.entries[0]);
      var e := Connect(acc.prevExits, next.entries)[0];
      assert e in row.edges && e.source == here.exits[0] && e.target == next.entries[0];
    } else {
      RowTied(stages, n - 1, k, path, x, y, parent, collapsed);
      var e :| e in acc.edges && e.source == here.exits[0] && e.target == next.entries[0];
      assert e in row.edges;
    }
  }

  lemma {:induction false} HasEdgeLeads(edges: seq<Edge>, u: string, v: string)
    requires HasEdge(edges, u, v)
    ensures Leads(edges, u, v)
  {
    var e :| e in edges && e.source == u && e.target == v;
    EdgeLeads(edges, e);
  }

  /** Any box of a stage leads to any box of a later stage of the list. */
  lemma {:induction false} RowLeads(
    stages: seq<Stage>, path: string, x: int, y: int, parent: Option<string>, collapsed: set<string>,
    i: nat, j: nat, u: string, v: string)
    requires i < j < |stages|
    requires u in Tops(stages[i], Child(path, stages[i].id)) && v in Tops(stages[j], Child(path, stages[j].id))
    ensures Leads(RowUpTo(stages, |stages|, path, x, y, parent, collapsed).edges, u, v)
    decreases stages, 2, j
  {
    var E := RowUpTo(stages, |stages|, path, x, y, parent, collapsed).edges;
    hide RowUpTo, Tops, Leads, LeadsOrIs;
    if i == j - 1 {
      NextLeads(stages, path, x, y, parent, collapsed, i, u, v);
    } else {
      BranchHasTop(stages[j - 1], Child(path, stages[j - 1].id));
      var w :| w in Tops(stages[j - 1], Child(path, stages[j - 1].id));
      RowLeads(stages, path, x, y, parent, collapsed, i, j - 1, u, w);
      NextLeads(stages, path, x, y, parent, collapsed, j - 1, w, v);
      LeadsTransitive(E, u, w, v);
    }
  }

  /** Any box of a stage leads to any box of the next stage of the list. */
  lemma {:induction false} NextLeads(
    stages: seq<Stage>, path: string, x: int, y: int, parent: Option<string>, collapsed: set<string>,
    i: nat, u: string, v: string)
    requires i + 1 < |stages|
    requires u in Tops(stages[i], Child(path, stages[i].id)) && v in Tops(stages[i + 1], Child(path, stages[i + 1].id))
    ensures Leads(RowUpTo(stages, |stages|, path, x, y, parent, collapsed).edges, u, v)
    decreases stages, 1
  {
    var E := RowUpTo(stages, |stages|, path, x, y, parent, collapsed).edges;
    var before := RowSegment(stages, i, path, x, y, parent, collapsed);
    var here := RowSegment(stages, i + 1, path, x, y, parent, collapsed);
    hide RowUpTo, RowSegment, Tops, Realises, Among, Leads, HasEdge;
    RowSegmentRealises(stages, i, path, x, y, parent, collapsed);
    RowSegmentRealises(stages, i + 1, path, x, y, parent, collapsed);
    RowHas(stages, |stages|, i, path, x, y, parent, collapsed);
    RowHas(stages, |stages|, i + 1, path, x, y, parent, collapsed);
    RowTied(stages, |stages|, i, path, x, y, parent, collapsed);
    HasEdgeLeads(E, before.exits[0], here.entries[0]);
    LeadsOrIsAmong(here.edges, E, here.entries[0], v);
    LeadsOrIsAmong(before.edges, E, u, before.exits[0]);
    LeadsOrIsTransitive(E, before.exits[0], here.entries[0], v);
    LeadsOrIsTransitive(E, u, before.exits[0], v);
  }

  lemma {:induction false} RowRealises(
    stages: seq<Stage>, path: string, x: int, y: int, parent: Option<string>, collapsed: set<string>,
    u: string, v: string)
    requires InStages(stages, path, collapsed, u, v)
    ensures Leads(LayoutStages(stages, path, x, y, parent, collapsed).edges, u, v)
    decreases stages, 2
  {
    if InOrder(stages, path, u, v) {
      var i: nat, j: nat :| i < j < |stages| &&
        u in Tops(stages[i], Child(path, stages[i].id)) && v in Tops(stages[j], Child(path, stages[j].id));
      RowLeads(stages, path, x, y, parent, collapsed, i, j, u, v);
    } else {
      var k: nat :| k < |stages| && InStage(stages[k], Child(path, stages[k].id), collapsed, u, v);
      RowSegmentRealises(stages, k, path, x, y, parent, collapsed);
      RowHas(stages, |stages|, k, path, x, y, parent, collapsed);
      LeadsAmong(RowSegment(stages, k, path, x, y, parent, collapsed).edges,
                 LayoutStages(stages, path, x, y, parent, collapsed).edges, u, v);
    }
  }

  // ---------- levels are groups

  /** The nodes standing directly in `parent` are those whose ids belong to the level. */
  ghost predicate LevelIs(nodes: seq<Node>, parent: Option<string>, s: Stage, id: string) {
    && (forall k | 0 <= k < |nodes| :: nodes[k].parent == parent <==> nodes[k].id in Tops(s, id))
    && (forall u | u in Tops(s, id) :: exists k :: 0 <= k < |nodes| && nodes[k].id == u)
  }

  /** The same for the first `n` parts of a list. */
  ghost predicate LevelSoFar(nodes: seq<Node>, parent: Option<string>, stages: seq<Stage>, n: nat, path: string)
    requires n <= |stages|
  {
    && (forall k | 0 <= k < |nodes| :: nodes[k].parent == parent <==> InSomeTops(stages[..n], path, nodes[k].id))
    && (forall u | InSomeTops(stages[..n], path, u) :: exists k :: 0 <= k < |nodes| && nodes[k].id == u)
  }

  lemma {:induction false} StageLevel(
    s: Stage, path: string, x: int, y: int, parent: Option<string>, collapsed: set<string>)
    requires WellNamedStage(s) && Geometry.ShorterThan(parent, Child(path, s.id))
    ensures LevelIs(LayoutStage(s, Child(path, s.id), x, y, parent, collapsed).nodes, parent, s, Child(path, s.id))
    decreases s, 2
  {
    hide LayoutParallelBlock, LayoutNestedPipeline, LevelIs, Tops, WellNamed;
    var id := Child(path, s.id);
    if IsParallel(s) {
      BlockLevel(s, id, x, y, parent, collapsed);
    } else if IsNested(s) {
      GroupLevel(s, id, x, y, parent, collapsed);
    } else {
      AloneOnLevel(LayoutLeaf(s, id, x, y, parent).nodes, parent, s, id);
    }
  }

  /** One box alone on its level, perhaps with others inside it. */
  lemma {:induction false} AloneOnLevel(nodes: seq<Node>, parent: Option<string>, s: Stage, id: string)
    requires !IsParallel(s) && nodes != [] && nodes[0].id == id && nodes[0].parent == parent
    requires forall k | 0 < k < |nodes| :: nodes[k].id != id && nodes[k].parent != parent
    ensures LevelIs(nodes, parent, s, id)
  {
  }

  lemma {:induction false} GroupLevel(
    s: Stage, id: string, x: int, y: int, parent: Option<string>, collapsed: set<string>)
    requires IsNested(s) && Geometry.ShorterThan(parent, id)
    ensures LevelIs(LayoutNestedPipeline(s, id, x, y, parent, collapsed).nodes, parent, s, id)
    decreases s, 1
  {
    hide LevelIs, LayoutStages;
    var nodes := LayoutNestedPipeline(s, id, x, y, parent, collapsed).nodes;
    if IsOpen(s, id, collapsed) {
      var stages := s.nestedPipeline.value.stages;
      var inner := LayoutStages(stages, NestedPath(id), GROUP_PAD, HEADER_H + GROUP_PAD, Some(id), collapsed).nodes;
      InnerApart(stages, id, parent, collapsed);
      forall k | 0 < k < |nodes| ensures nodes[k].parent != parent && nodes[k].id != id {
        assert nodes[k] == inner[k - 1];
      }
    }
    AloneOnLevel(nodes, parent, s, id);
  }

  /** The contents of a group stand in the group or deeper. */
  lemma {:induction false} InnerApart(stages: seq<Stage>, id: string, parent: Option<string>, collapsed: set<string>)
    requires Geometry.ShorterThan(parent, id)
    ensures var inner := LayoutStages(stages, NestedPath(id), GROUP_PAD, HEADER_H + GROUP_PAD, Some(id), collapsed);
            forall node | node in inner.nodes ::
              node.id != id && node.parent != parent
  {
    hide Geometry.Tidy, RowUpTo;
    Geometry.RowNeat(stages, |stages|, NestedPath(id), GROUP_PAD, HEADER_H + GROUP_PAD, Some(id), collapsed);
    var inner := LayoutStages(stages, NestedPath(id), GROUP_PAD, HEADER_H + GROUP_PAD, Some(id), collapsed).nodes;
    forall k | 0 <= k < |inner| ensures inner[k].id != id && inner[k].parent != parent {
      assert Placement.ParentIndex(inner, k) < 0 ==> inner[k].parent == Some(id);
    }
  }

  lemma {:induction false} AddLevel(
    nodes: seq<Node>, placed: seq<Node>, parent: Option<string>, stages: seq<Stage>, n: nat, path: string)
    requires n < |stages| && WellNamed(stages)
    requires LevelSoFar(nodes, parent, stages, n, path) && UnderSiblings(nodes, path, stages, n)
    requires LevelIs(placed, parent, stages[n], Child(path, stages[n].id))
    requires AllUnder(placed, Child(path, stages[n].id))
    ensures LevelSoFar(nodes + placed, parent, stages, n + 1, path)
  {
    var all, id := nodes + placed, Child(path, stages[n].id);
    var some, more := stages[..n], stages[..n + 1];
    forall u | InSomeTops(more, path, u) ensures InSomeTops(some, path, u) || u in Tops(stages[n], id) {
      var i :| 0 <= i < |more| && u in Tops(more[i], Child(path, more[i].id));
      assert i < n ==> some[i] == more[i];
    }
    forall u | InSomeTops(some, path, u) ensures InSomeTops(more, path, u) {
      var i :| 0 <= i < |some| && u in Tops(some[i], Child(path, some[i].id));
      assert more[i] == some[i];
    }
    forall u | u in Tops(stages[n], id) ensures InSomeTops(more, path, u) {
      assert more[n] == stages[n];
    }
    forall k | 0 <= k < |all| ensures all[k].parent == parent <==> InSomeTops(more, path, all[k].id) {
      var u := all[k].id;
      if k < |nodes| {
        assert UnderSome(nodes[k].id, path, stages, n);
        SomeSiblingApart(u, path, stages, n);
        if u in Tops(stages[n], id) { TopsUnder(stages[n], id, u); }
      } else {
        assert all[k] == placed[k - |nodes|] && Under(id, u);
        if InSomeTops(some, path, u) {
          var i :| 0 <= i < |some| && u in Tops(some[i], Child(path, some[i].id));
          TopsUnder(stages[i], Child(path, stages[i].id), u);
          SameSibling(stages, path, i, n, u);
        }
      }
    }
    forall u | InSomeTops(more, path, u) ensures exists k :: 0 <= k < |all| && all[k].id == u {
      if InSomeTops(some, path, u) {
        var k :| 0 <= k < |nodes| && nodes[k].id == u;
        assert all[k].id == u;
      } else {
        var k :| 0 <= k < |placed| && placed[k].id == u;
        assert all[|nodes| + k].id == u;
      }
    }
  }

  lemma {:induction false} NothingOnLevel(parent: Option<string>, stages: seq<Stage>, path: string)
    ensures LevelSoFar([], parent, stages, 0, path)
  {
  }

  lemma {:induction false} AddsBranch(acc: Branches, placed: Segment, i: nat, prefix: string, y: int)
    ensures AddBranch(acc, placed, i, prefix, y).nodes == acc.nodes + placed.nodes
  {
  }

  lemma {:induction false} AddsStage(acc: Row, placed: Segment, i: nat)
    ensures AddStage(acc, placed, i).nodes == acc.nodes + placed.nodes
  {
  }

  lemma {:induction false} BranchesLevel(
    stages: seq<Stage>, n: nat, prefix: string, childX: int, y: int, parent: Option<string>, collapsed: set<string>)
    requires n <= |stages| && WellNamed(stages) && Geometry.ShorterThan(parent, prefix)
    ensures LevelSoFar(BranchesUpTo(stages, n, prefix, childX, y, parent, collapsed).nodes, parent, stages, n, prefix)
    decreases stages, 0, n
  {
    NothingOnLevel(parent, stages, prefix);
    hide LayoutStage, LevelSoFar, LevelIs, UnderSiblings, UniqueIds, RailsNamed, AllUnder, AddBranch;
    if n > 0 {
      var acc := BranchesUpTo(stages, n - 1, prefix, childX, y, parent, collapsed);
      var placed := LayoutStage(stages[n - 1], Child(prefix, stages[n - 1].id), childX, acc.nextY, parent, collapsed);
      assert WellNamedStage(stages[n - 1]);
      BranchesLevel(stages, n - 1, prefix, childX, y, parent, collapsed);
      StageLevel(stages[n - 1], prefix, childX, acc.nextY, parent, collapsed);
      BranchesNamed(stages, n - 1, prefix, childX, y, parent, collapsed);
      StageNamed(stages[n - 1], prefix, childX, acc.nextY, parent, collapsed);
      AddLevel(acc.nodes, placed.nodes, parent, stages, n - 1, prefix);
      assert AddBranch(acc, placed, n - 1, prefix, y).nodes == acc.nodes + placed.nodes by {
        AddsBranch(acc, placed, n - 1, prefix, y);
      }
    }
  }

  lemma {:induction false} RowLevel(
    stages: seq<Stage>, n: nat, path: string, x: int, y: int, parent: Option<string>, collapsed: set<string>)
    requires n <= |stages| && WellNamed(stages) && Geometry.ShorterThan(parent, path)
    ensures LevelSoFar(RowUpTo(stages, n, path, x, y, parent, collapsed).nodes, parent, stages, n, path)
    decreases stages, 0, n
  {
    NothingOnLevel(parent, stages, path);
    hide LayoutStage, LevelSoFar, LevelIs, UnderSiblings, UniqueIds, RailsNamed, AllUnder, AddStage;
    if n > 0 {
      var acc := RowUpTo(stages, n - 1, path, x, y, parent, collapsed);
      var placed := LayoutStage(stages[n - 1], Child(path, stages[n - 1].id), acc.nextX, y, parent, collapsed);
      assert WellNamedStage(stages[n - 1]);
      RowLevel(stages, n - 1, path, x, y, parent, collapsed);
      StageLevel(stages[n - 1], path, acc.nextX, y, parent, collapsed);
      RowNamed(stages, n - 1, path, x, y, parent, collapsed);
      StageNamed(stages[n - 1], path, acc.nextX, y, parent, collapsed);
      AddLevel(acc.nodes, placed.nodes, parent, stages, n - 1, path);
      assert AddStage(acc, placed, n - 1).nodes == acc.nodes + placed.nodes by { AddsStage(acc, placed, n - 1); }
    }
  }

  lemma {:induction false} BlockLevel(
    s: Stage, id: string, x: int, y: int, parent: Option<string>, collapsed: set<string>)
    requires IsParallel(s) && WellNamedStage(s) && Geometry.ShorterThan(parent, id)
    ensures LevelIs(LayoutParallelBlock(s, id, x, y, parent, collapsed).nodes, parent, s, id)
    decreases s, 1
  {
    var stages, childX := s.parallelStages, x + RAIL_GAP + RAIL_W;
    var b := BranchesUpTo(stages, |stages|, id, childX, y, parent, collapsed);
    BranchesLevel(stages, |stages|, id, childX, y, parent, collapsed);
    BranchesNamed(stages, |stages|, id, childX, y, parent, collapsed);
    assert stages[..|stages|] == stages;
    hide BranchesUpTo, LevelIs, CloseBlock, Tops, UnderSiblings, UniqueIds, RailsNamed, InSomeTops;
    CloseBlockLevel(s, b, id, x, y, parent);
  }

  lemma {:induction false} CloseBlockLevel(
    s: Stage, b: Branches, id: string, x: int, y: int, parent: Option<string>)
    requires IsParallel(s) && WellNamed(s.parallelStages)
    requires UnderSiblings(b.nodes, id, s.parallelStages, |s.parallelStages|)
    requires forall k | 0 <= k < |b.nodes| ::
               b.nodes[k].parent == parent <==> InSomeTops(s.parallelStages, id, b.nodes[k].id)
    requires forall u | InSomeTops(s.parallelStages, id, u) :: exists k :: 0 <= k < |b.nodes| && b.nodes[k].id == u
    ensures LevelIs(CloseBlock(b, |s.parallelStages|, id, x, y, parent).nodes, parent, s, id)
  {
    var stages := s.parallelStages;
    var nodes := CloseBlock(b, |stages|, id, x, y, parent).nodes;
    RailApart(b.nodes, id, stages, "split");
    RailApart(b.nodes, id, stages, "merge");
    assert nodes[|b.nodes|].id == Child(id, "split") && nodes[|b.nodes| + 1].id == Child(id, "merge");
    assert forall k | 0 <= k < |b.nodes| :: nodes[k] == b.nodes[k];
    hide UnderSiblings, CloseBlock;
    forall u | u in Tops(s, id) && u != Child(id, "split") && u != Child(id, "merge")
      ensures InSomeTops(stages, id, u)
    {
      var k :| 0 <= k < |stages| && u in Tops(stages[k], Child(id, stages[k].id));
    }
    forall k | 0 <= k < |b.nodes| ensures nodes[k].parent == parent <==> nodes[k].id in Tops(s, id) {
      if InSomeTops(stages, id, nodes[k].id) { BranchTops(s, id, nodes[k].id); }
    }
    forall u | u in Tops(s, id) ensures exists k :: 0 <= k < |nodes| && nodes[k].id == u {
      if InSomeTops(stages, id, u) {
        var k :| 0 <= k < |b.nodes| && b.nodes[k].id == u;
        assert nodes[k].id == u;
      }
    }
  }

  // ---------- the theorems

  /** In a well-named drawing, one id leads to another along edges exactly when it comes before it. */
  lemma LeadsMeansBefore(stages: seq<Stage>, collapsed: set<string>, u: string, v: string)
    requires WellNamed(stages)
    ensures Leads(LayoutReport(stages, collapsed).edges, u, v) <==> InStages(stages, "root", collapsed, u, v)
  {
    var edges := LayoutReport(stages, collapsed).edges;
    if InStages(stages, "root", collapsed, u, v) {
      RowRealises(stages, "root", ROOT_OFFSET, ROOT_OFFSET, None, collapsed, u, v);
    }
    if Leads(edges, u, v) {
      var p :| WalkFrom(edges, p, u, v);
      RowFollows(stages, |stages|, "root", ROOT_OFFSET, ROOT_OFFSET, None, collapsed);
      var before := (a, b) => InStages(stages, "root", collapsed, a, b);
      forall a, b, c | before(a, b) && before(b, c) ensures before(a, c) {
        StagesTransitive(stages, "root", collapsed, a, b, c);
      }
      assert HasEdge(edges, p[0], p[1]);
      WalkRelates(edges, before, p);
    }
  }

  /** `u` and `v` stand on one level and descend from different stages of its list, `u` from the earlier. */
  ghost predicate Precedes(stages: seq<Stage>, path: string, collapsed: set<string>, u: string, v: string)
    decreases stages, 1
  {
    || InOrder(stages, path, u, v)
    || exists k :: 0 <= k < |stages| && PrecedesWithin(stages[k], Child(path, stages[k].id), collapsed, u, v)
  }

  /** The same on some level inside one stage: the branches of a block are not ordered among themselves. */
  ghost predicate PrecedesWithin(s: Stage, id: string, collapsed: set<string>, u: string, v: string)
    decreases s, 0
  {
    if IsParallel(s) then
      exists k :: 0 <= k < |s.parallelStages| &&
        PrecedesWithin(s.parallelStages[k], Child(id, s.parallelStages[k].id), collapsed, u, v)
    else
      IsNested(s) && IsOpen(s, id, collapsed) &&
      Precedes(s.nestedPipeline.value.stages, NestedPath(id), collapsed, u, v)
  }

  lemma {:induction false} WithinAgrees(s: Stage, id: string, collapsed: set<string>, u: string, v: string)
    requires !IsRailNodeId(u) && !IsRailNodeId(v)
    ensures InStage(s, id, collapsed, u, v) <==> PrecedesWithin(s, id, collapsed, u, v)
    decreases s, 0
  {
    if IsParallel(s) {
      RailNames(id, "split");
      RailNames(id, "merge");
      forall k | 0 <= k < |s.parallelStages| {
        WithinAgrees(s.parallelStages[k], Child(id, s.parallelStages[k].id), collapsed, u, v);
      }
    } else if IsNested(s) {
      BeforeAgrees(s.nestedPipeline.value.stages, NestedPath(id), collapsed, u, v);
    }
  }

  lemma {:induction false} BeforeAgrees(
    stages: seq<Stage>, path: string, collapsed: set<string>, u: string, v: string)
    requires !IsRailNodeId(u) && !IsRailNodeId(v)
    ensures InStages(stages, path, collapsed, u, v) <==> Precedes(stages, path, collapsed, u, v)
    decreases stages, 1
  {
    forall k | 0 <= k < |stages| {
      WithinAgrees(stages[k], Child(path, stages[k].id), collapsed, u, v);
    }
  }

  /** Along a walk boxes stay in one group and move strictly to the right. */
  ghost predicate RightOf(nodes: seq<Node>, u: string, v: string) {
    forall i, j | 0 <= i < |nodes| && 0 <= j < |nodes| && nodes[i].id == u && nodes[j].id == v ::
      nodes[i].parent == nodes[j].parent && nodes[i].x < nodes[j].x
  }

  lemma {:induction false} WalkMovesRight(nodes: seq<Node>, edges: seq<Edge>, p: seq<string>)
    requires UniqueIds(nodes) && Flow.AllDrawn(nodes, edges)
    requires forall k | 0 <= k < |nodes| :: nodes[k].w >= 0
    requires |p| >= 2 && Walk(edges, p)
    ensures RightOf(nodes, p[0], p[|p| - 1])
    ensures exists k :: 0 <= k < |nodes| && nodes[k].id == p[0]
    ensures exists k :: 0 <= k < |nodes| && nodes[k].id == p[|p| - 1]
  {
    var n := |p|;
    assert HasEdge(edges, p[n - 2], p[n - 1]);
    var e :| e in edges && e.source == p[n - 2] && e.target == p[n - 1];
    var i: nat, j: nat :| Flow.DrawnBetween(nodes, e, i, j);
    if n > 2 {
      var q := p[..n - 1];
      forall i | 0 <= i < |q| - 1 ensures HasEdge(edges, q[i], q[i + 1]) {
        assert HasEdge(edges, p[i], p[i + 1]);
      }
      WalkMovesRight(nodes, edges, q);
      assert q[|q| - 1] == nodes[i].id;
    }
  }

  /** The precedence theorem: in a well-named drawing one stage or group leads to another along edges exactly
      when they stand on one level and descend from different stages of its list, in this order; both then
      lie in the same group, the first to the left of the second. Nothing leads back to itself. */
  lemma EdgesMeanPrecedence(stages: seq<Stage>, collapsed: set<string>, j: nat, k: nat)
    requires WellNamed(stages)
    requires var nodes := LayoutReport(stages, collapsed).nodes; j < |nodes| && k < |nodes|
    ensures var drawing := LayoutReport(stages, collapsed);
            var u, v := drawing.nodes[j], drawing.nodes[k];
            && (!u.data.RailData? && !v.data.RailData? ==>
                  (Leads(drawing.edges, u.id, v.id) <==> Precedes(stages, "root", collapsed, u.id, v.id)))
            && (Leads(drawing.edges, u.id, v.id) ==> u.parent == v.parent && u.x < v.x && j != k)
  {
    var drawing := LayoutReport(stages, collapsed);
    var nodes, edges := drawing.nodes, drawing.edges;
    var u, v := nodes[j], nodes[k];
    NodesWellFormed(stages, collapsed);
    if !u.data.RailData? && !v.data.RailData? {
      LeadsMeansBefore(stages, collapsed, u.id, v.id);
      BeforeAgrees(stages, "root", collapsed, u.id, v.id);
    }
    if Leads(edges, u.id, v.id) {
      Flow.EdgesRunForward(stages, collapsed);
      Geometry.RowNeat(stages, |stages|, "root", ROOT_OFFSET, ROOT_OFFSET, None, collapsed);
      var p :| WalkFrom(edges, p, u.id, v.id);
      WalkMovesRight(nodes, edges, p);
    }
  }
}
