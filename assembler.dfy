/** The driver: workflow selection, default propagation, every cluster,
    then the edges of every direct workflow. */
module GraphAssembler {
  import opened OrderedMaps
  import opened Workflows
  import opened Defaults
  import opened Graphs
  import opened NodeBuilder
  import opened EdgeResolver

  /** The clusters of all workflows, in document order. */
  function AllClusters(ws: seq<(string, Workflow)>): (r: seq<Cluster>)
    ensures |r| == |ws|
  {
    if ws == [] then []
    else AllClusters(ws[..|ws| - 1]) + [ClusterOf(ws[|ws| - 1].0, ws[|ws| - 1].1)]
  }

  /** The cluster of every workflow sits at that workflow's position. */
  lemma {:induction false} AllClustersAt(ws: seq<(string, Workflow)>, i: nat)
    requires i < |ws|
    ensures AllClusters(ws)[i] == ClusterOf(ws[i].0, ws[i].1)
  {
    var front := ws[..|ws| - 1];
    if i < |front| {
      AllClustersAt(front, i);
      assert AllClusters(ws)[i] == AllClusters(front)[i];
      assert front[i] == ws[i];
    } else {
      assert ws[i] == ws[|ws| - 1];
    }
  }

  /** The edges of all workflows resolved against `clusters`: those of a
      direct workflow, nothing for any other type. */
  function AllEdges(clusters: seq<Cluster>, ws: seq<(string, Workflow)>): seq<Edge>
  {
    if ws == [] then []
    else
      var last := ws[|ws| - 1];
      AllEdges(clusters, ws[..|ws| - 1])
        + (if IsDirect(last.1) then DirectEdges(clusters, last.0, last.1) else [])
  }

  /** `generate_graph`: selects the workflows, propagates the defaults
      twice, adds every workflow's cluster and only then the edges of the
      direct workflows, each resolved against the complete set of nodes. */
  method GenerateGraph(content: Content) returns (graph: Graph)
    ensures fresh(graph)
    ensures graph.clusters == AllClusters(Propagated(SelectWorkflows(content)))
    ensures graph.edges == AllEdges(graph.clusters, Propagated(SelectWorkflows(content)))
  {
    graph := new Graph();
    var workflows := SelectWorkflows(content);
    workflows := AddTaskDefault(workflows);
    workflows := AddTaskRequire(workflows);
    PropagatedIdempotent(SelectWorkflows(content));
    AddAllNodes(workflows, graph);
    AddAllEdges(workflows, graph);
  }

  /** The first loop of `generate_graph`: the cluster of every workflow, in
      order, and no edge. */
  method AddAllNodes(workflows: seq<(string, Workflow)>, graph: Graph)
    modifies graph
    ensures graph.clusters == old(graph.clusters) + AllClusters(workflows)
    ensures graph.edges == old(graph.edges)
  {
    var i := 0;
    assert workflows[..i] == [];
    while i < |workflows|
      invariant 0 <= i <= |workflows|
      invariant graph.clusters == old(graph.clusters) + AllClusters(workflows[..i])
      invariant graph.edges == old(graph.edges)
    {
      ghost var done := AllClusters(workflows[..i]);
      GenerateDirectNodes(workflows[i].0, workflows[i].1, graph);
      assert graph.clusters == old(graph.clusters) + done + [ClusterOf(workflows[i].0, workflows[i].1)];
      AllClustersSnoc(workflows, i);
      ConcatAssoc(old(graph.clusters), done, [ClusterOf(workflows[i].0, workflows[i].1)]);
      i := i + 1;
    }
    assert workflows[..i] == workflows;
  }

  /** The second loop of `generate_graph`: the edges of every direct
      workflow, in order, resolved against the clusters already there. */
  method AddAllEdges(workflows: seq<(string, Workflow)>, graph: Graph)
    modifies graph
    ensures graph.clusters == old(graph.clusters)
    ensures graph.edges == old(graph.edges) + AllEdges(graph.clusters, workflows)
  {
    ghost var clusters := graph.clusters;
    var i := 0;
    assert workflows[..i] == [];
    while i < |workflows|
      invariant 0 <= i <= |workflows|
      invariant graph.clusters == clusters
      invariant graph.edges == old(graph.edges) + AllEdges(clusters, workflows[..i])
    {
      ghost var done := AllEdges(clusters, workflows[..i]);
      ghost var added := if IsDirect(workflows[i].1) then DirectEdges(clusters, workflows[i].0, workflows[i].1) else [];
      if IsDirect(workflows[i].1) {
        GenerateDirectEdges(workflows[i].0, workflows[i].1, graph);
      }
      assert graph.edges == old(graph.edges) + done + added;
      AllEdgesSnoc(clusters, workflows, i);
      ConcatAssoc(old(graph.edges), done, added);
      i := i + 1;
    }
    assert workflows[..i] == workflows;
  }

  lemma AllClustersSnoc(ws: seq<(string, Workflow)>, i: nat)
    requires i < |ws|
    ensures AllClusters(ws[..i + 1]) == AllClusters(ws[..i]) + [ClusterOf(ws[i].0, ws[i].1)]
  {
    assert ws[..i + 1][..i] == ws[..i];
  }

  lemma AllEdgesSnoc(clusters: seq<Cluster>, ws: seq<(string, Workflow)>, i: nat)
    requires i < |ws|
    ensures AllEdges(clusters, ws[..i + 1]) == AllEdges(clusters, ws[..i])
              + (if IsDirect(ws[i].1) then DirectEdges(clusters, ws[i].0, ws[i].1) else [])
  {
    assert ws[..i + 1][..i] == ws[..i];
  }

  /** Because every cluster is built before any edge, the qualified name of
      every task of every workflow exists when edges are resolved. */
  lemma EveryTaskHasNode(ws: seq<(string, Workflow)>, w: nat)
    requires w < |ws|
    ensures forall t :: 0 <= t < |ws[w].1.tasks| ==>
              HasNode(AllClusters(ws), ws[w].0 + "." + ws[w].1.tasks[t].0)
  {
    AllClustersAt(ws, w);
    forall t | 0 <= t < |ws[w].1.tasks|
      ensures HasNode(AllClusters(ws), ws[w].0 + "." + ws[w].1.tasks[t].0)
    {
      HasNodeAt(AllClusters(ws), w, t, ws[w].0 + "." + ws[w].1.tasks[t].0);
    }
  }

  /** An explicit edge from a task to a task of the same workflow joins the
      two qualified names. */
  lemma ExplicitEdgeToOwnTask(ws: seq<(string, Workflow)>, w: nat, t: nat,
                              category: string, e: CallbackEntry)
    requires w < |ws| && t < |ws[w].1.tasks| && category in Categories
    requires HasKey(ws[w].1.tasks, e.target)
    ensures ExplicitEdge(AllClusters(ws), ws[w].0, ws[w].1.tasks[t].0, category, e)
         == Edge(ws[w].0 + "." + ws[w].1.tasks[t].0, ws[w].0 + "." + e.target, Some(Color(category)))
  {
    EveryTaskHasNode(ws, w);
    var k := KeyIndex(ws[w].1.tasks, e.target);
    assert ws[w].1.tasks[k].0 == e.target;
  }

  /** No workflow or task name holds a period. */
  predicate DotFree(ws: seq<(string, Workflow)>)
  {
    forall i :: 0 <= i < |ws| ==>
      '.' !in ws[i].0 && forall j :: 0 <= j < |ws[i].1.tasks| ==> '.' !in ws[i].1.tasks[j].0
  }

  /** A qualified name splits back into its parts when the first part holds
      no period. */
  lemma SplitQualified(a: string, b: string, c: string, d: string)
    requires '.' !in a && '.' !in c
    requires a + "." + b == c + "." + d
    ensures a == c && b == d
  {
    var s := a + "." + b;
    assert s[|a|] == '.';
    assert forall k :: 0 <= k < |c| ==> s[k] == c[k];
    assert forall k :: 0 <= k < |a| ==> s[k] == a[k];
    assert s[|c|] == '.';
    assert |a| == |c|;
    assert s[..|a|] == a && s[..|c|] == c;
    assert s[|a| + 1..] == b && s[|c| + 1..] == d;
  }

  /** When names hold no periods and workflow names are distinct, the
      qualified name `workflow.x` exists exactly when `x` is a task of that
      workflow: a callback to anything else falls back to the bare name. */
  lemma QualifiedExactlyForOwnTasks(ws: seq<(string, Workflow)>, w: nat, x: string)
    requires w < |ws| && UniqueKeys(ws) && DotFree(ws) && '.' !in x
    ensures HasNode(AllClusters(ws), ws[w].0 + "." + x) <==> HasKey(ws[w].1.tasks, x)
  {
    var clusters := AllClusters(ws);
    if HasKey(ws[w].1.tasks, x) {
      EveryTaskHasNode(ws, w);
      var k := KeyIndex(ws[w].1.tasks, x);
      assert ws[w].1.tasks[k].0 == x;
    }
    if HasNode(clusters, ws[w].0 + "." + x) {
      var i, j :| 0 <= i < |clusters| && 0 <= j < |clusters[i].nodes| &&
                  clusters[i].nodes[j].name == ws[w].0 + "." + x;
      AllClustersAt(ws, i);
      assert clusters[i].nodes[j].name == ws[i].0 + "." + ws[i].1.tasks[j].0;
      SplitQualified(ws[i].0, ws[i].1.tasks[j].0, ws[w].0, x);
      assert i == w;
      assert ws[w].1.tasks[j].0 == x;
    }
  }

  /** A callback to a name that is no task of the workflow leaves the child
      endpoint bare, while the parent endpoint stays qualified. */
  lemma ExplicitEdgeToUnknownTarget(ws: seq<(string, Workflow)>, w: nat, t: nat,
                                   category: string, e: CallbackEntry)
    requires w < |ws| && t < |ws[w].1.tasks| && category in Categories
    requires UniqueKeys(ws) && DotFree(ws) && '.' !in e.target
    requires !HasKey(ws[w].1.tasks, e.target)
    ensures ExplicitEdge(AllClusters(ws), ws[w].0, ws[w].1.tasks[t].0, category, e)
         == Edge(ws[w].0 + "." + ws[w].1.tasks[t].0, e.target, Some(Color(category)))
  {
    EveryTaskHasNode(ws, w);
    QualifiedExactlyForOwnTasks(ws, w, e.target);
  }

  /** Why nodes come first: resolved against a graph with no clusters yet,
      every explicit edge would join the two bare names. */
  lemma EdgesBeforeNodesAreBare(workflowName: string, taskName: string, category: string,
                                e: CallbackEntry)
    requires category in Categories
    ensures ExplicitEdge([], workflowName, taskName, category, e) == Edge(taskName, e.target, Some(Color(category)))
  {
    assert !HasNode([], workflowName + "." + taskName);
    assert !HasNode([], workflowName + "." + e.target);
  }

  /** A document without a direct workflow gets no edges at all. */
  lemma {:induction false} NoEdgesWithoutDirect(clusters: seq<Cluster>, ws: seq<(string, Workflow)>)
    requires forall i :: 0 <= i < |ws| ==> !IsDirect(ws[i].1)
    ensures AllEdges(clusters, ws) == []
  {
    if ws != [] {
      NoEdgesWithoutDirect(clusters, ws[..|ws| - 1]);
    }
  }
}
