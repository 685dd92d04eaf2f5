/** Node building: one dashed cluster per workflow, one box node per task. */
module NodeBuilder {
  import opened Strings
  import opened OrderedMaps
  import opened Workflows
  import opened Defaults
  import opened Labels
  import opened Graphs

  /** `workflow_name.replace(".", "").replace("-", "")`: the name without
      periods and hyphens, every other character kept. */
  function ClusterName(workflowName: string): (r: string)
    ensures '.' !in r && '-' !in r
    ensures forall x :: x != '.' && x != '-' ==> multiset(r)[x] == multiset(workflowName)[x]
    ensures '.' !in workflowName && '-' !in workflowName ==> r == workflowName
  {
    var withoutDots := RemoveChar(workflowName, '.');
    assert multiset(RemoveChar(withoutDots, '-'))['.'] == 0;
    RemoveChar(withoutDots, '-')
  }

  /** One character of a workflow name: periods and hyphens disappear,
      anything else stays. */
  lemma ClusterNameOne(x: char)
    ensures ClusterName([x]) == if x == '.' || x == '-' then [] else [x]
  {
    RemoveCharOne(x, '.');
    if x != '.' {
      RemoveCharOne(x, '-');
    } else {
      assert RemoveChar([], '-') == [];
    }
  }

  /** The cluster name is built piece by piece, so the kept characters keep
      their order; with `ClusterNameOne` this fixes the cluster name of
      every workflow name. */
  lemma ClusterNameAppend(a: string, b: string)
    ensures ClusterName(a + b) == ClusterName(a) + ClusterName(b)
  {
    RemoveCharAppend(a, b, '.');
    RemoveCharAppend(RemoveChar(a, '.'), RemoveChar(b, '.'), '-');
  }

  /** The node of one task: named `workflow.task`, labelled with the task
      name, its action (else its `workflow` reference, else `noop`) and the
      defaults it does not override. */
  function NodeOf(workflowName: string, taskName: string, task: Task): Node
  {
    Node(workflowName + "." + taskName, Label(taskName, ActionOf(task), InheritedDefaults(task)))
  }

  /** The nodes of a task list, in declaration order. */
  function NodesOf(workflowName: string, tasks: seq<(string, Task)>): (r: seq<Node>)
    ensures |r| == |tasks|
    ensures forall i :: 0 <= i < |tasks| ==> r[i] == NodeOf(workflowName, tasks[i].0, tasks[i].1)
  {
    seq(|tasks|, i requires 0 <= i < |tasks| => NodeOf(workflowName, tasks[i].0, tasks[i].1))
  }

  lemma NodesOfSnoc(workflowName: string, tasks: seq<(string, Task)>, i: nat)
    requires i < |tasks|
    ensures NodesOf(workflowName, tasks[..i + 1])
         == NodesOf(workflowName, tasks[..i]) + [NodeOf(workflowName, tasks[i].0, tasks[i].1)]
  {
    var a := NodesOf(workflowName, tasks[..i + 1]);
    var b := NodesOf(workflowName, tasks[..i]) + [NodeOf(workflowName, tasks[i].0, tasks[i].1)];
    assert |a| == |b|;
    forall k | 0 <= k < |a|
      ensures a[k] == b[k]
    {
      assert tasks[..i + 1][k] == tasks[k];
      if k < i {
        assert tasks[..i][k] == tasks[k];
      }
    }
  }

  /** The cluster of a workflow: its sanitised name, the workflow name as
      label, and exactly one node per task, in order. */
  function ClusterOf(workflowName: string, workflow: Workflow): (c: Cluster)
    ensures c.name == ClusterName(workflowName) && c.caption == workflowName
    ensures |c.nodes| == |workflow.tasks|
    ensures forall i :: 0 <= i < |workflow.tasks| ==>
              c.nodes[i].name == workflowName + "." + workflow.tasks[i].0 &&
              c.nodes[i].caption == Label(workflow.tasks[i].0, ActionOf(workflow.tasks[i].1),
                                          InheritedDefaults(workflow.tasks[i].1))
  {
    Cluster(ClusterName(workflowName), workflowName, NodesOf(workflowName, workflow.tasks))
  }

  /** Two tasks with different names give nodes with different names. */
  lemma QualifiedNamesDistinct(workflowName: string, a: string, b: string)
    requires a != b
    ensures workflowName + "." + a != workflowName + "." + b
  {
    var n := |workflowName| + 1;
    assert (workflowName + "." + a)[n..] == a;
    assert (workflowName + "." + b)[n..] == b;
  }

  /** Node names are unique within a cluster when task names are unique
      within the workflow. */
  lemma ClusterNodesDistinct(workflowName: string, workflow: Workflow)
    requires UniqueKeys(workflow.tasks)
    ensures var c := ClusterOf(workflowName, workflow);
            forall i, j :: 0 <= i < j < |c.nodes| ==> c.nodes[i].name != c.nodes[j].name
  {
    var c := ClusterOf(workflowName, workflow);
    forall i, j | 0 <= i < j < |c.nodes|
      ensures c.nodes[i].name != c.nodes[j].name
    {
      QualifiedNamesDistinct(workflowName, workflow.tasks[i].0, workflow.tasks[j].0);
    }
  }

  /** The body of the loop of `generate_direct_nodes`: the action (else the
      `workflow` reference, else `noop`), the inherited defaults and the
      label built from them. */
  method TaskNode(workflowName: string, taskName: string, task: Task) returns (node: Node)
    ensures node == NodeOf(workflowName, taskName, task)
  {
    var action := ActionOf(task);
    var inherited := InheritedDefaults(task);
    var html := GenerateLabelHtml(taskName, action, inherited);
    node := Node(workflowName + "." + taskName, html);
  }

  /** `generate_direct_nodes`: builds the cluster node by node and adds it
      to the graph; the edges are untouched. */
  method GenerateDirectNodes(workflowName: string, workflow: Workflow, graph: Graph)
    modifies graph
    ensures graph.clusters == old(graph.clusters) + [ClusterOf(workflowName, workflow)]
    ensures graph.edges == old(graph.edges)
  {
    var tasks := workflow.tasks;
    var nodes: seq<Node> := [];
    var i := 0;
    while i < |tasks|
      invariant 0 <= i <= |tasks|
      invariant nodes == NodesOf(workflowName, tasks[..i])
      invariant unchanged(graph)
    {
      var node := TaskNode(workflowName, tasks[i].0, tasks[i].1);
      NodesOfSnoc(workflowName, tasks, i);
      nodes := nodes + [node];
      i := i + 1;
    }
    assert tasks[..i] == tasks;
    assert Cluster(ClusterName(workflowName), workflowName, nodes) == ClusterOf(workflowName, workflow);
    graph.AddSubgraph(Cluster(ClusterName(workflowName), workflowName, nodes));
  }
}
