/** Edge resolution: explicit edges from the callback lists, and at most one
    implicit edge from a task to the task declared after it. */
module EdgeResolver {
  import opened OrderedMaps
  import opened Workflows
  import opened Graphs

  /** The edge of one callback entry: each endpoint is the qualified
      `workflow.task` name when a node of that name exists in some cluster,
      else the bare name; the colour is the category's. */
  function ExplicitEdge(clusters: seq<Cluster>, workflowName: string, taskName: string,
                        category: string, e: CallbackEntry): Edge
    requires category in Categories
  {
    Edge(Resolve(clusters, workflowName + "." + taskName, taskName),
         Resolve(clusters, workflowName + "." + e.target, e.target),
         Some(Color(category)))
  }

  /** The edges of one category's list, one per entry, in order. */
  function CategoryEdges(clusters: seq<Cluster>, workflowName: string, taskName: string,
                         category: string, entries: seq<CallbackEntry>): seq<Edge>
    requires category in Categories
  {
    seq(|entries|, i requires 0 <= i < |entries| =>
      ExplicitEdge(clusters, workflowName, taskName, category, entries[i]))
  }

  /** The number of entries the task lists under the categories `cats`. */
  function EntryTotal(task: Task, cats: seq<string>): nat
  {
    if cats == [] then 0 else EntryTotal(task, cats[..|cats| - 1]) + |EntriesOf(task, cats[|cats| - 1])|
  }

  /** The explicit edges of a task for the categories `cats`, category after
      category. */
  function TaskEdgesFor(clusters: seq<Cluster>, workflowName: string, taskName: string,
                        task: Task, cats: seq<string>): seq<Edge>
    requires forall c :: c in cats ==> c in Categories
  {
    if cats == [] then []
    else
      TaskEdgesFor(clusters, workflowName, taskName, task, cats[..|cats| - 1])
        + CategoryEdges(clusters, workflowName, taskName, cats[|cats| - 1], EntriesOf(task, cats[|cats| - 1]))
  }

  /** Exactly one explicit edge per entry of the categories `cats`: as many
      edges as entries, and an edge is there exactly when it is the edge of
      some entry. */
  lemma {:induction false} TaskEdgesForSpec(clusters: seq<Cluster>, workflowName: string, taskName: string,
                                            task: Task, cats: seq<string>)
    requires forall c :: c in cats ==> c in Categories
    ensures |TaskEdgesFor(clusters, workflowName, taskName, task, cats)| == EntryTotal(task, cats)
    ensures forall e :: e in TaskEdgesFor(clusters, workflowName, taskName, task, cats) <==>
              exists k, j :: 0 <= k < |cats| && 0 <= j < |EntriesOf(task, cats[k])| &&
                             e == ExplicitEdge(clusters, workflowName, taskName, cats[k], EntriesOf(task, cats[k])[j])
  {
    if cats != [] {
      var front := cats[..|cats| - 1];
      var last := cats[|cats| - 1];
      var entries := EntriesOf(task, last);
      TaskEdgesForSpec(clusters, workflowName, taskName, task, front);
      var r := TaskEdgesFor(clusters, workflowName, taskName, task, cats);
      var tail := CategoryEdges(clusters, workflowName, taskName, last, entries);
      assert r == TaskEdgesFor(clusters, workflowName, taskName, task, front) + tail;
      forall e | e in r
        ensures exists k, j :: 0 <= k < |cats| && 0 <= j < |EntriesOf(task, cats[k])| &&
                               e == ExplicitEdge(clusters, workflowName, taskName, cats[k], EntriesOf(task, cats[k])[j])
      {
        if e in tail {
          var j :| 0 <= j < |tail| && tail[j] == e;
          assert e == ExplicitEdge(clusters, workflowName, taskName, cats[|cats| - 1], EntriesOf(task, cats[|cats| - 1])[j]);
        } else {
          var k, j :| 0 <= k < |front| && 0 <= j < |EntriesOf(task, front[k])| &&
                      e == ExplicitEdge(clusters, workflowName, taskName, front[k], EntriesOf(task, front[k])[j]);
          assert front[k] == cats[k];
        }
      }
      forall k, j | 0 <= k < |cats| && 0 <= j < |EntriesOf(task, cats[k])|
        ensures ExplicitEdge(clusters, workflowName, taskName, cats[k], EntriesOf(task, cats[k])[j]) in r
      {
        if k == |cats| - 1 {
          assert tail[j] == ExplicitEdge(clusters, workflowName, taskName, cats[k], EntriesOf(task, cats[k])[j]);
        } else {
          assert front[k] == cats[k];
        }
      }
    }
  }

  /** `generate_task_edges` as a value: the categories in table order. */
  function TaskEdges(clusters: seq<Cluster>, workflowName: string, taskName: string, task: Task): seq<Edge>
  {
    TaskEdgesFor(clusters, workflowName, taskName, task, Categories)
  }

  /** Some entry of the list contains `name` (`any(name in v for v in val)`). */
  predicate AnyContains(entries: seq<CallbackEntry>, name: string)
  {
    exists j :: 0 <= j < |entries| && EntryContains(entries[j], name)
  }

  /** Some entry of some category of some task contains `name`. */
  predicate Claimed(tasks: seq<(string, Task)>, name: string)
  {
    exists i, c :: 0 <= i < |tasks| && c in Categories && AnyContains(EntriesOf(tasks[i].1, c), name)
  }

  /** The task declared right after `taskName`, if any. */
  function Successor(workflow: Workflow, taskName: string): Option<string>
    requires HasKey(workflow.tasks, taskName)
  {
    var i := KeyIndex(workflow.tasks, taskName);
    if i + 1 < |workflow.tasks| then Some(workflow.tasks[i + 1].0) else None
  }

  /** `generate_indirect_edges` as a value: no edge when the task declares a
      category key, when it is the last task, or when some entry contains the
      successor's name; otherwise one uncoloured edge between the qualified
      names, with no existence check. */
  function IndirectEdges(workflowName: string, workflow: Workflow, taskName: string, task: Task): seq<Edge>
    requires HasKey(workflow.tasks, taskName)
  {
    if DeclaresCategory(task) then []
    else match Successor(workflow, taskName)
      case None => []
      case Some(next) =>
        if Claimed(workflow.tasks, next) then []
        else [Edge(workflowName + "." + taskName, workflowName + "." + next, None)]
  }

  /** The edges of the first `n` tasks, task by task: implicit edge first,
      then the explicit ones. */
  function DirectEdgesUpTo(clusters: seq<Cluster>, workflowName: string, workflow: Workflow, n: nat): seq<Edge>
    requires n <= |workflow.tasks|
  {
    if n == 0 then []
    else
      var name := workflow.tasks[n - 1].0;
      var task := workflow.tasks[n - 1].1;
      assert HasKey(workflow.tasks, name) by { assert workflow.tasks[n - 1].0 == name; }
      DirectEdgesUpTo(clusters, workflowName, workflow, n - 1)
        + IndirectEdges(workflowName, workflow, name, task)
        + TaskEdges(clusters, workflowName, name, task)
  }

  /** `generate_direct_edges` as a value. */
  function DirectEdges(clusters: seq<Cluster>, workflowName: string, workflow: Workflow): seq<Edge>
  {
    DirectEdgesUpTo(clusters, workflowName, workflow, |workflow.tasks|)
  }

  /** `generate_task_edges`: for every category that has entries, the edges
      of its list. */
  method GenerateTaskEdges(workflowName: string, taskName: string, task: Task, graph: Graph)
    modifies graph
    ensures graph.clusters == old(graph.clusters)
    ensures graph.edges == old(graph.edges) + TaskEdges(graph.clusters, workflowName, taskName, task)
  {
    ghost var clusters := graph.clusters;
    var c := 0;
    assert Categories[..c] == [];
    while c < |Categories|
      invariant 0 <= c <= |Categories|
      invariant graph.clusters == clusters
      invariant graph.edges == old(graph.edges) + TaskEdgesFor(clusters, workflowName, taskName, task, Categories[..c])
    {
      var callbackType := Categories[c];
      var cbtype := EntriesOf(task, callbackType);
      ghost var done := TaskEdgesFor(clusters, workflowName, taskName, task, Categories[..c]);
      ghost var added := CategoryEdges(clusters, workflowName, taskName, callbackType, cbtype);
      if cbtype != [] {
        GenerateCategoryEdges(workflowName, taskName, callbackType, cbtype, graph);
      } else {
        assert added == [];
      }
      assert graph.edges == old(graph.edges) + done + added;
      TaskEdgesForSnoc(clusters, workflowName, taskName, task, c);
      ConcatAssoc(old(graph.edges), done, added);
      c := c + 1;
    }
    assert Categories[..c] == Categories;
  }

  /** The inner loop of `generate_task_edges`: for every entry of one
      category's list, the node scan decides each endpoint, then the edge is
      added. */
  method GenerateCategoryEdges(workflowName: string, taskName: string, callbackType: string,
                               cbtype: seq<CallbackEntry>, graph: Graph)
    requires callbackType in Categories
    modifies graph
    ensures graph.clusters == old(graph.clusters)
    ensures graph.edges == old(graph.edges) + CategoryEdges(graph.clusters, workflowName, taskName, callbackType, cbtype)
  {
    ghost var clusters := graph.clusters;
    var j := 0;
    assert cbtype[..j] == [];
    while j < |cbtype|
      invariant 0 <= j <= |cbtype|
      invariant graph.clusters == clusters
      invariant graph.edges == old(graph.edges) + CategoryEdges(clusters, workflowName, taskName, callbackType, cbtype[..j])
    {
      ghost var done := CategoryEdges(clusters, workflowName, taskName, callbackType, cbtype[..j]);
      var callback := cbtype[j].target;
      var childName := workflowName + "." + callback;
      var parentName := workflowName + "." + taskName;
      var childFound, parentFound := graph.FindNodes(childName, parentName);
      if !childFound {
        childName := callback;
      }
      if !parentFound {
        parentName := taskName;
      }
      var edge := Edge(parentName, childName, Some(Color(callbackType)));
      assert edge == ExplicitEdge(clusters, workflowName, taskName, callbackType, cbtype[j]);
      CategoryEdgesSnoc(clusters, workflowName, taskName, callbackType, cbtype, j);
      graph.AddEdge(edge);
      ConcatAssoc(old(graph.edges), done, [edge]);
      j := j + 1;
    }
    assert cbtype[..j] == cbtype;
  }

  lemma CategoryEdgesSnoc(clusters: seq<Cluster>, workflowName: string, taskName: string,
                          category: string, entries: seq<CallbackEntry>, j: nat)
    requires category in Categories && j < |entries|
    ensures CategoryEdges(clusters, workflowName, taskName, category, entries[..j + 1])
         == CategoryEdges(clusters, workflowName, taskName, category, entries[..j])
            + [ExplicitEdge(clusters, workflowName, taskName, category, entries[j])]
  {
  }

  lemma TaskEdgesForSnoc(clusters: seq<Cluster>, workflowName: string, taskName: string, task: Task, c: nat)
    requires c < |Categories|
    ensures TaskEdgesFor(clusters, workflowName, taskName, task, Categories[..c + 1])
         == TaskEdgesFor(clusters, workflowName, taskName, task, Categories[..c])
            + CategoryEdges(clusters, workflowName, taskName, Categories[c], EntriesOf(task, Categories[c]))
  {
    assert Categories[..c + 1][..c] == Categories[..c];
  }

  lemma ConcatAssoc<T>(a: seq<T>, b: seq<T>, c: seq<T>)
    ensures a + b + c == a + (b + c)
  {
  }

  /** `generate_indirect_edges`: the key test, the successor lookup and the
      scan over every task's callback lists, each ending the call early. */
  method GenerateIndirectEdges(workflowName: string, workflow: Workflow, taskName: string, task: Task,
                               graph: Graph)
    requires HasKey(workflow.tasks, taskName)
    modifies graph
    ensures graph.clusters == old(graph.clusters)
    ensures graph.edges == old(graph.edges) + IndirectEdges(workflowName, workflow, taskName, task)
  {
    var declares := false;
    var k := 0;
    while k < |task.callbacks|
      invariant 0 <= k <= |task.callbacks|
      invariant declares <==> exists m :: 0 <= m < k && task.callbacks[m].0 in Categories
      invariant unchanged(graph)
    {
      if task.callbacks[k].0 in Categories {
        declares := true;
      }
      k := k + 1;
    }
    if declares {
      assert DeclaresCategory(task);
      return;
    }
    assert !DeclaresCategory(task);
    var index := KeyIndex(workflow.tasks, taskName);
    if index + 1 >= |workflow.tasks| {
      assert Successor(workflow, taskName) == None;
      return;
    }
    var taskNext := workflow.tasks[index + 1].0;
    assert Successor(workflow, taskName) == Some(taskNext);
    var tasks := workflow.tasks;
    var i := 0;
    while i < |tasks|
      invariant 0 <= i <= |tasks|
      invariant !Claimed(tasks[..i], taskNext)
      invariant unchanged(graph)
    {
      var value := tasks[i].1;
      var c := 0;
      while c < |Categories|
        invariant 0 <= c <= |Categories|
        invariant forall m :: 0 <= m < c ==> !AnyContains(EntriesOf(value, Categories[m]), taskNext)
        invariant unchanged(graph)
      {
        var val := EntriesOf(value, Categories[c]);
        if val != [] && AnyContains(val, taskNext) {
          ClaimedAt(tasks, i, Categories[c], taskNext);
          return;
        }
        c := c + 1;
      }
      ClaimedSnoc(tasks, i, taskNext);
      i := i + 1;
    }
    assert tasks[..i] == tasks;
    var childName := workflowName + "." + taskNext;
    var parentName := workflowName + "." + taskName;
    graph.AddEdge(Edge(parentName, childName, None));
  }

  /** An entry of a task that contains `name` claims it. */
  lemma ClaimedAt(tasks: seq<(string, Task)>, i: nat, c: string, name: string)
    requires i < |tasks| && c in Categories && AnyContains(EntriesOf(tasks[i].1, c), name)
    ensures Claimed(tasks, name)
  {
  }

  /** The scan of one more task found nothing: the longer prefix claims
      nothing either. */
  lemma ClaimedSnoc(tasks: seq<(string, Task)>, i: nat, name: string)
    requires i < |tasks| && !Claimed(tasks[..i], name)
    requires forall m :: 0 <= m < |Categories| ==> !AnyContains(EntriesOf(tasks[i].1, Categories[m]), name)
    ensures !Claimed(tasks[..i + 1], name)
  {
    var longer := tasks[..i + 1];
    forall i', cat | 0 <= i' < |longer| && cat in Categories
      ensures !AnyContains(EntriesOf(longer[i'].1, cat), name)
    {
      if i' < i {
        assert longer[i'] == tasks[..i][i'];
      } else {
        assert cat == Categories[0] || cat == Categories[1] || cat == Categories[2];
      }
    }
  }

  lemma DirectEdgesStep(clusters: seq<Cluster>, workflowName: string, workflow: Workflow, i: nat)
    requires i < |workflow.tasks|
    ensures HasKey(workflow.tasks, workflow.tasks[i].0)
    ensures DirectEdgesUpTo(clusters, workflowName, workflow, i + 1)
         == DirectEdgesUpTo(clusters, workflowName, workflow, i)
            + IndirectEdges(workflowName, workflow, workflow.tasks[i].0, workflow.tasks[i].1)
            + TaskEdges(clusters, workflowName, workflow.tasks[i].0, workflow.tasks[i].1)
  {
    assert workflow.tasks[i].0 == workflow.tasks[i].0;
  }

  /** `generate_direct_edges`: for every task in order, the implicit edge and
      then the explicit ones. */
  method GenerateDirectEdges(workflowName: string, workflow: Workflow, graph: Graph)
    modifies graph
    ensures graph.clusters == old(graph.clusters)
    ensures graph.edges == old(graph.edges) + DirectEdges(graph.clusters, workflowName, workflow)
  {
    var tasks := workflow.tasks;
    ghost var clusters := graph.clusters;
    var i := 0;
    while i < |tasks|
      invariant 0 <= i <= |tasks|
      invariant graph.clusters == clusters
      invariant graph.edges == old(graph.edges) + DirectEdgesUpTo(clusters, workflowName, workflow, i)
    {
      var taskName := tasks[i].0;
      var task := tasks[i].1;
      ghost var done := DirectEdgesUpTo(clusters, workflowName, workflow, i);
      DirectEdgesStep(clusters, workflowName, workflow, i);
      ghost var implicit := IndirectEdges(workflowName, workflow, taskName, task);
      ghost var explicit := TaskEdges(clusters, workflowName, taskName, task);
      ghost var before := graph.edges;
      GenerateIndirectEdges(workflowName, workflow, taskName, task, graph);
      assert graph.edges == before + implicit && graph.clusters == clusters;
      ghost var between := graph.edges;
      GenerateTaskEdges(workflowName, taskName, task, graph);
      assert graph.edges == between + explicit;
      ConcatAssoc(old(graph.edges), done, implicit);
      ConcatAssoc(old(graph.edges), done + implicit, explicit);
      i := i + 1;
    }
    assert i == |workflow.tasks|;
  }

  /** A task that declares no category key has no callback entries. */
  lemma NoDeclarationNoEntries(t: Task, c: string)
    requires !DeclaresCategory(t) && c in Categories
    ensures EntriesOf(t, c) == []
  {
    assert forall i :: 0 <= i < |t.callbacks| ==> t.callbacks[i].0 != c;
    assert !HasKey(t.callbacks, c);
  }

  lemma {:induction false} TaskEdgesForNoDeclaration(clusters: seq<Cluster>, workflowName: string, taskName: string,
                                                     task: Task, cats: seq<string>)
    requires forall c :: c in cats ==> c in Categories
    requires !DeclaresCategory(task)
    ensures TaskEdgesFor(clusters, workflowName, taskName, task, cats) == []
  {
    if cats != [] {
      NoDeclarationNoEntries(task, cats[|cats| - 1]);
      TaskEdgesForNoDeclaration(clusters, workflowName, taskName, task, cats[..|cats| - 1]);
    }
  }

  /** In a workflow in which no task declares a callback category, every
      task but the last has its implicit edge to the next one. */
  lemma ChainImplicit(workflowName: string, workflow: Workflow, m: nat)
    requires m < |workflow.tasks| && UniqueKeys(workflow.tasks)
    requires forall i :: 0 <= i < |workflow.tasks| ==> !DeclaresCategory(workflow.tasks[i].1)
    ensures HasKey(workflow.tasks, workflow.tasks[m].0)
    ensures IndirectEdges(workflowName, workflow, workflow.tasks[m].0, workflow.tasks[m].1)
         == if m + 1 < |workflow.tasks|
            then [Edge(workflowName + "." + workflow.tasks[m].0, workflowName + "." + workflow.tasks[m + 1].0, None)]
            else []
  {
    var tasks := workflow.tasks;
    KeyIndexOfUnique(tasks, m);
    if m + 1 < |tasks| {
      forall i, c | 0 <= i < |tasks| && c in Categories
        ensures !AnyContains(EntriesOf(tasks[i].1, c), tasks[m + 1].0)
      {
        NoDeclarationNoEntries(tasks[i].1, c);
      }
    }
  }

  /** The chain from task to task over the first `n` tasks. */
  predicate IsChain(r: seq<Edge>, workflowName: string, tasks: seq<(string, Task)>, n: nat)
    requires n <= |tasks|
  {
    |r| == (if n == |tasks| && n > 0 then n - 1 else n) &&
    forall i :: 0 <= i < |r| ==>
      r[i] == Edge(workflowName + "." + tasks[i].0, workflowName + "." + tasks[i + 1].0, None)
  }

  lemma ChainExtend(prev: seq<Edge>, implicit: seq<Edge>, workflowName: string, tasks: seq<(string, Task)>, m: nat)
    requires m < |tasks| && IsChain(prev, workflowName, tasks, m)
    requires implicit == if m + 1 < |tasks|
                         then [Edge(workflowName + "." + tasks[m].0, workflowName + "." + tasks[m + 1].0, None)]
                         else []
    ensures IsChain(prev + implicit, workflowName, tasks, m + 1)
  {
    var r := prev + implicit;
    forall i | 0 <= i < |r|
      ensures r[i] == Edge(workflowName + "." + tasks[i].0, workflowName + "." + tasks[i + 1].0, None)
    {
      if i < |prev| {
        assert r[i] == prev[i];
      } else {
        assert r[i] == implicit[0];
      }
    }
  }

  /** The N-1 implicit edges of the first `n` tasks of a workflow in which
      no task declares a callback category. */
  lemma {:induction false} ChainUpTo(clusters: seq<Cluster>, workflowName: string, workflow: Workflow, n: nat)
    requires n <= |workflow.tasks| && UniqueKeys(workflow.tasks)
    requires forall i :: 0 <= i < |workflow.tasks| ==> !DeclaresCategory(workflow.tasks[i].1)
    ensures IsChain(DirectEdgesUpTo(clusters, workflowName, workflow, n), workflowName, workflow.tasks, n)
  {
    if n > 0 {
      var tasks := workflow.tasks;
      var m := n - 1;
      ChainUpTo(clusters, workflowName, workflow, m);
      DirectEdgesStep(clusters, workflowName, workflow, m);
      TaskEdgesForNoDeclaration(clusters, workflowName, tasks[m].0, tasks[m].1, Categories);
      ChainImplicit(workflowName, workflow, m);
      var prev := DirectEdgesUpTo(clusters, workflowName, workflow, m);
      var implicit := IndirectEdges(workflowName, workflow, tasks[m].0, tasks[m].1);
      assert DirectEdgesUpTo(clusters, workflowName, workflow, n) == prev + implicit + [];
      assert prev + implicit + [] == prev + implicit;
      ChainExtend(prev, implicit, workflowName, tasks, m);
    }
  }

  /** A workflow of N tasks in which no task declares a callback category
      gets exactly N-1 edges, the chain from each task to the next in
      declaration order. */
  lemma DirectChainWithoutCallbacks(clusters: seq<Cluster>, workflowName: string, workflow: Workflow)
    requires UniqueKeys(workflow.tasks)
    requires forall i :: 0 <= i < |workflow.tasks| ==> !DeclaresCategory(workflow.tasks[i].1)
    ensures var r := DirectEdges(clusters, workflowName, workflow);
            |r| == (if workflow.tasks == [] then 0 else |workflow.tasks| - 1) &&
            forall i :: 0 <= i < |r| ==>
              r[i] == Edge(workflowName + "." + workflow.tasks[i].0,
                           workflowName + "." + workflow.tasks[i + 1].0, None)
  {
    ChainUpTo(clusters, workflowName, workflow, |workflow.tasks|);
  }
}
