/** Small documents worked through the whole translation: a three-task
    chain with one callback, a workflow whose `task-defaults` one task
    overrides, and two ways an implicit edge is suppressed: by a callback
    naming its target, and by the substring rule. */
module Scenarios {
  import opened OrderedMaps
  import opened Workflows
  import opened Defaults
  import opened Labels
  import opened Graphs
  import opened NodeBuilder
  import opened EdgeResolver
  import opened GraphAssembler

  /** A chain of three tasks `n1`, `n2`, `n3` with actions `a1`, `a2`, `a3`,
      where `n1` has the on-success entry `n2`; no `task-defaults`. For
      instance `wf1` with tasks `t1`, `t2`, `t3` and actions `a1`, `a2`,
      `a3`. */
  function Chain(n1: string, n2: string, n3: string, a1: string, a2: string, a3: string): Workflow
  {
    Workflow(None, [(n1, Task(Some(a1), None, [("on-success", [Name(n2)])], [])),
                    (n2, Task(Some(a2), None, [], [])),
                    (n3, Task(Some(a3), None, [], []))], [])
  }

  /** Without `task-defaults`, and before any `default` was written,
      propagation changes nothing. */
  lemma NoDefaultsPropagated(ws: seq<(string, Workflow)>)
    requires forall i :: 0 <= i < |ws| ==> ws[i].1.taskDefaults == []
    requires forall i, j :: 0 <= i < |ws| && 0 <= j < |ws[i].1.tasks| ==> ws[i].1.tasks[j].1.default == []
    ensures Propagated(ws) == ws
  {
    forall i | 0 <= i < |ws|
      ensures Propagated(ws)[i] == ws[i]
    {
      assert CategoryDefaults(ws[i].1.taskDefaults) == [];
      assert WithDefault(ws[i].1.tasks, []) == ws[i].1.tasks;
    }
  }

  /** The only explicit edge of the chain is `n1`'s on-success entry, joining
      qualified names because both nodes exist. */
  lemma ChainTaskEdges(clusters: seq<Cluster>, w: string, wf: Workflow)
    requires |wf.tasks| == 3 && wf.tasks[0].1.callbacks == [("on-success", [Name(wf.tasks[1].0)])]
    requires wf.tasks[1].1.callbacks == [] && wf.tasks[2].1.callbacks == []
    requires HasNode(clusters, w + "." + wf.tasks[0].0) && HasNode(clusters, w + "." + wf.tasks[1].0)
    ensures TaskEdges(clusters, w, wf.tasks[0].0, wf.tasks[0].1)
         == [Edge(w + "." + wf.tasks[0].0, w + "." + wf.tasks[1].0, Some(Color("on-success")))]
    ensures TaskEdges(clusters, w, wf.tasks[1].0, wf.tasks[1].1) == []
    ensures TaskEdges(clusters, w, wf.tasks[2].0, wf.tasks[2].1) == []
  {
    var n1 := wf.tasks[0].0;
    var n2 := wf.tasks[1].0;
    var t1 := wf.tasks[0].1;
    assert EntriesOf(t1, "on-error") == [] by { assert !HasKey(t1.callbacks, "on-error"); }
    assert EntriesOf(t1, "on-success") == [Name(n2)] by { assert t1.callbacks[0].0 == "on-success"; }
    assert EntriesOf(t1, "on-complete") == [] by { assert !HasKey(t1.callbacks, "on-complete"); }
    var e := Edge(w + "." + n1, w + "." + n2, Some(Color("on-success")));
    assert ExplicitEdge(clusters, w, n1, "on-success", Name(n2)) == e;
    assert Categories[..2] == ["on-error", "on-success"];
    assert Categories[..2][..1] == ["on-error"];
    assert Categories[..2][..1][..0] == [];
    assert TaskEdgesFor(clusters, w, n1, t1, ["on-error"]) == [];
    assert TaskEdgesFor(clusters, w, n1, t1, ["on-error", "on-success"]) == [e];
    assert !DeclaresCategory(wf.tasks[1].1) && !DeclaresCategory(wf.tasks[2].1);
    TaskEdgesForNoDeclaration(clusters, w, n2, wf.tasks[1].1, Categories);
    TaskEdgesForNoDeclaration(clusters, w, wf.tasks[2].0, wf.tasks[2].1, Categories);
  }

  /** No entry of the chain contains `n3` when `n2` does not. */
  lemma ChainNothingClaimsLast(wf: Workflow)
    requires |wf.tasks| == 3 && wf.tasks[0].1.callbacks == [("on-success", [Name(wf.tasks[1].0)])]
    requires wf.tasks[1].1.callbacks == [] && wf.tasks[2].1.callbacks == []
    requires !Strings.Contains(wf.tasks[1].0, wf.tasks[2].0)
    ensures !Claimed(wf.tasks, wf.tasks[2].0)
  {
    var tasks := wf.tasks;
    forall i, c | 0 <= i < |tasks| && c in Categories
      ensures !AnyContains(EntriesOf(tasks[i].1, c), tasks[2].0)
    {
      if i == 0 {
        if c == "on-success" {
          assert tasks[0].1.callbacks[0].0 == c;
        } else {
          assert !HasKey(tasks[0].1.callbacks, c);
        }
      } else {
        assert !HasKey(tasks[i].1.callbacks, c);
      }
    }
  }

  /** The implicit edges of the chain: only `n2 -> n3`. `n1` declares a
      category and `n3` is last. */
  lemma ChainIndirectEdges(w: string, wf: Workflow)
    requires |wf.tasks| == 3 && wf.tasks[0].1.callbacks == [("on-success", [Name(wf.tasks[1].0)])]
    requires wf.tasks[1].1.callbacks == [] && wf.tasks[2].1.callbacks == []
    requires UniqueKeys(wf.tasks) && !Strings.Contains(wf.tasks[1].0, wf.tasks[2].0)
    ensures HasKey(wf.tasks, wf.tasks[0].0) && IndirectEdges(w, wf, wf.tasks[0].0, wf.tasks[0].1) == []
    ensures HasKey(wf.tasks, wf.tasks[1].0) &&
            IndirectEdges(w, wf, wf.tasks[1].0, wf.tasks[1].1) == [Edge(w + "." + wf.tasks[1].0, w + "." + wf.tasks[2].0, None)]
    ensures HasKey(wf.tasks, wf.tasks[2].0) && IndirectEdges(w, wf, wf.tasks[2].0, wf.tasks[2].1) == []
  {
    var tasks := wf.tasks;
    assert DeclaresCategory(tasks[0].1) by { assert tasks[0].1.callbacks[0].0 in Categories; }
    ChainNothingClaimsLast(wf);
    KeyIndexOfUnique(tasks, 0);
    KeyIndexOfUnique(tasks, 1);
    KeyIndexOfUnique(tasks, 2);
    assert !DeclaresCategory(tasks[1].1);
    assert Successor(wf, tasks[1].0) == Some(tasks[2].0);
  }

  /** The chain's requirements, shared by the steps below. */
  predicate ChainShaped(clusters: seq<Cluster>, w: string, wf: Workflow)
  {
    |wf.tasks| == 3 && wf.tasks[0].1.callbacks == [("on-success", [Name(wf.tasks[1].0)])] &&
    wf.tasks[1].1.callbacks == [] && wf.tasks[2].1.callbacks == [] &&
    UniqueKeys(wf.tasks) && !Strings.Contains(wf.tasks[1].0, wf.tasks[2].0) &&
    HasNode(clusters, w + "." + wf.tasks[0].0) && HasNode(clusters, w + "." + wf.tasks[1].0)
  }

  /** The first task contributes only its explicit edge. */
  lemma ChainFirstStep(clusters: seq<Cluster>, w: string, wf: Workflow)
    requires ChainShaped(clusters, w, wf)
    ensures DirectEdgesUpTo(clusters, w, wf, 1)
         == [Edge(w + "." + wf.tasks[0].0, w + "." + wf.tasks[1].0, Some(Color("on-success")))]
  {
    ChainTaskEdges(clusters, w, wf);
    ChainIndirectEdges(w, wf);
    DirectEdgesStep(clusters, w, wf, 0);
  }

  /** The second task contributes only its implicit edge. */
  lemma ChainSecondStep(clusters: seq<Cluster>, w: string, wf: Workflow)
    requires ChainShaped(clusters, w, wf)
    ensures DirectEdgesUpTo(clusters, w, wf, 2)
         == DirectEdgesUpTo(clusters, w, wf, 1) + [Edge(w + "." + wf.tasks[1].0, w + "." + wf.tasks[2].0, None)]
  {
    ChainTaskEdges(clusters, w, wf);
    ChainIndirectEdges(w, wf);
    DirectEdgesStep(clusters, w, wf, 1);
  }

  /** The last task contributes nothing. */
  lemma ChainThirdStep(clusters: seq<Cluster>, w: string, wf: Workflow)
    requires ChainShaped(clusters, w, wf)
    ensures DirectEdgesUpTo(clusters, w, wf, 3) == DirectEdgesUpTo(clusters, w, wf, 2)
  {
    ChainTaskEdges(clusters, w, wf);
    ChainIndirectEdges(w, wf);
    DirectEdgesStep(clusters, w, wf, 2);
  }

  /** `generate_direct_edges` on the chain, once `n1` and `n2` have nodes. */
  lemma ChainDirectEdges(clusters: seq<Cluster>, w: string, wf: Workflow)
    requires |wf.tasks| == 3 && wf.tasks[0].1.callbacks == [("on-success", [Name(wf.tasks[1].0)])]
    requires wf.tasks[1].1.callbacks == [] && wf.tasks[2].1.callbacks == []
    requires UniqueKeys(wf.tasks) && !Strings.Contains(wf.tasks[1].0, wf.tasks[2].0)
    requires HasNode(clusters, w + "." + wf.tasks[0].0) && HasNode(clusters, w + "." + wf.tasks[1].0)
    ensures DirectEdges(clusters, w, wf)
         == [Edge(w + "." + wf.tasks[0].0, w + "." + wf.tasks[1].0, Some(Color("on-success"))),
             Edge(w + "." + wf.tasks[1].0, w + "." + wf.tasks[2].0, None)]
  {
    assert ChainShaped(clusters, w, wf);
    ChainFirstStep(clusters, w, wf);
    ChainSecondStep(clusters, w, wf);
    ChainThirdStep(clusters, w, wf);
  }

  /** The clusters of the chain document: one cluster with the nodes
      `w.n1`, `w.n2`, `w.n3`, in order. */
  lemma ChainNodes(w: string, n1: string, n2: string, n3: string, a1: string, a2: string, a3: string)
    ensures var clusters := AllClusters([(w, Chain(n1, n2, n3, a1, a2, a3))]);
            |clusters| == 1 &&
            |clusters[0].nodes| == 3 &&
            clusters[0].nodes[0].name == w + "." + n1 &&
            clusters[0].nodes[1].name == w + "." + n2 &&
            clusters[0].nodes[2].name == w + "." + n3
  {
    AllClustersAt([(w, Chain(n1, n2, n3, a1, a2, a3))], 0);
  }

  lemma ChainUnique(n1: string, n2: string, n3: string, a1: string, a2: string, a3: string)
    requires n1 != n2 && n2 != n3 && n1 != n3
    ensures UniqueKeys(Chain(n1, n2, n3, a1, a2, a3).tasks)
  {
  }

  /** The edges of the chain document: the explicit on-success edge
      `w.n1 -> w.n2` and the implicit edge `w.n2 -> w.n3`, when the names
      are distinct and `n3` is no substring of `n2`. */
  lemma ChainEdges(w: string, n1: string, n2: string, n3: string, a1: string, a2: string, a3: string)
    requires n1 != n2 && n2 != n3 && n1 != n3 && !Strings.Contains(n2, n3)
    ensures var ws := [(w, Chain(n1, n2, n3, a1, a2, a3))];
            AllEdges(AllClusters(ws), ws) == [Edge(w + "." + n1, w + "." + n2, Some(Color("on-success"))),
                                              Edge(w + "." + n2, w + "." + n3, None)]
  {
    var wf := Chain(n1, n2, n3, a1, a2, a3);
    var ws := [(w, wf)];
    ChainUnique(n1, n2, n3, a1, a2, a3);
    var clusters := AllClusters(ws);
    EveryTaskHasNode(ws, 0);
    assert wf.tasks[0].0 == n1 && wf.tasks[1].0 == n2;
    ChainDirectEdges(clusters, w, wf);
    assert ws[..0] == [];
  }

  /** The chain document has no `task-defaults`: propagation keeps it. */
  lemma ChainPropagated(w: string, n1: string, n2: string, n3: string, a1: string, a2: string, a3: string)
    ensures Propagated([(w, Chain(n1, n2, n3, a1, a2, a3))]) == [(w, Chain(n1, n2, n3, a1, a2, a3))]
  {
    var wf := Chain(n1, n2, n3, a1, a2, a3);
    assert forall j :: 0 <= j < |wf.tasks| ==> wf.tasks[j].1.default == [];
    NoDefaultsPropagated([(w, wf)]);
  }

  /** The whole translation of the chain document: `generate_graph` on it
      yields exactly those nodes and those two edges. */
  lemma ChainGraph(w: string, n1: string, n2: string, n3: string, a1: string, a2: string, a3: string)
    requires n1 != n2 && n2 != n3 && n1 != n3 && !Strings.Contains(n2, n3)
    ensures var ws := Propagated(SelectWorkflows(Content(Some([(w, Chain(n1, n2, n3, a1, a2, a3))]), [])));
            var clusters := AllClusters(ws);
            |clusters| == 1 &&
            |clusters[0].nodes| == 3 &&
            clusters[0].nodes[0].name == w + "." + n1 &&
            clusters[0].nodes[1].name == w + "." + n2 &&
            clusters[0].nodes[2].name == w + "." + n3 &&
            AllEdges(clusters, ws) == [Edge(w + "." + n1, w + "." + n2, Some(Color("on-success"))),
                                       Edge(w + "." + n2, w + "." + n3, None)]
  {
    var ws := [(w, Chain(n1, n2, n3, a1, a2, a3))];
    assert SelectWorkflows(Content(Some(ws), [])) == ws;
    ChainPropagated(w, n1, n2, n3, a1, a2, a3);
    ChainNodes(w, n1, n2, n3, a1, a2, a3);
    ChainEdges(w, n1, n2, n3, a1, a2, a3);
  }

  /** A workflow whose `task-defaults` holds the on-error list `fallback`,
      with a task `a` that declares no callback and a task `b` that declares
      its own on-error list `own`. */
  function Overriding(a: string, b: string, fallback: seq<CallbackEntry>, own: seq<CallbackEntry>): Workflow
  {
    Workflow(None, [(a, Task(None, None, [], [])),
                    (b, Task(None, None, [("on-error", own)], []))],
             [("on-error", fallback)])
  }

  /** After propagation `a` inherits the on-error list and `b`, which
      overrides it, inherits nothing. */
  lemma OverridingInherited(a: string, b: string, fallback: seq<CallbackEntry>, own: seq<CallbackEntry>)
    ensures var wf := PropagateWorkflow(Overriding(a, b, fallback, own));
            InheritedDefaults(wf.tasks[0].1) == [("on-error", fallback)] &&
            InheritedDefaults(wf.tasks[1].1) == []
  {
    var wf := Overriding(a, b, fallback, own);
    var d := CategoryDefaults(wf.taskDefaults);
    assert wf.taskDefaults[1..] == [] && wf.taskDefaults[0].0 in Categories;
    assert CategoryDefaults(wf.taskDefaults[1..]) == [];
    assert d == [wf.taskDefaults[0]] + CategoryDefaults(wf.taskDefaults[1..]);
    assert d == wf.taskDefaults;
    var ta := PropagateWorkflow(wf).tasks[0].1;
    var tb := PropagateWorkflow(wf).tasks[1].1;
    assert ta.default == d && ta.callbacks == [];
    assert tb.default == d && tb.callbacks == wf.tasks[1].1.callbacks;
    assert Get(d, "on-error") == Some(fallback) by { assert d[0].0 == "on-error"; }
    assert !HasKey(d, "on-success") && !HasKey(d, "on-complete");
    assert HasKey(tb.callbacks, "on-error") by { assert tb.callbacks[0].0 == "on-error"; }
  }

  /** The labels of that workflow: `a` shows the inherited on-error list,
      `b` no default at all. */
  lemma OverridingLabels(w: string, a: string, b: string, fallback: seq<CallbackEntry>, own: seq<CallbackEntry>)
    ensures var c := AllClusters(Propagated(SelectWorkflows(Content(Some([(w, Overriding(a, b, fallback, own))]), []))))[0];
            |c.nodes| == 2 &&
            c.nodes[0].caption == Label(a, "noop", [("on-error", fallback)]) &&
            c.nodes[1].caption == Label(b, "noop", [])
  {
    var wf := Overriding(a, b, fallback, own);
    assert SelectWorkflows(Content(Some([(w, wf)]), [])) == [(w, wf)];
    var ws := Propagated([(w, wf)]);
    assert ws == [(w, PropagateWorkflow(wf))];
    AllClustersAt(ws, 0);
    OverridingInherited(a, b, fallback, own);
  }

  /** The badges behind those labels: one on-error badge per entry of
      `fallback`, in order, and none for an empty default. */
  lemma OverridingBadges(fallback: seq<CallbackEntry>)
    ensures Badges([("on-error", fallback)])
         == seq(|fallback|, i requires 0 <= i < |fallback| => Badge(Color("on-error"), fallback[i].target))
    ensures Badges([]) == []
  {
    var d: Callbacks := [("on-error", fallback)];
    assert d[..0] == [];
  }

  /** Tasks `a` and `t1` without callbacks, then `b` with on-success `t10`. */
  function SubstringWorkflow(): Workflow
  {
    Workflow(None, [("a", Task(None, None, [], [])),
                    ("t1", Task(None, None, [], [])),
                    ("b", Task(None, None, [("on-success", [Name("t10")])], []))], [])
  }

  /** The only entry of that workflow is `t10`. */
  lemma SubstringWorkflowEntries(i: nat, c: string)
    requires i < |SubstringWorkflow().tasks| && c in Categories
    ensures EntriesOf(SubstringWorkflow().tasks[i].1, c) ==
              if i == 2 && c == "on-success" then [Name("t10")] else []
  {
    var t := SubstringWorkflow().tasks[i].1;
    if i == 2 && c == "on-success" {
      assert t.callbacks[0].0 == c;
    } else {
      assert !HasKey(t.callbacks, c);
    }
  }

  /** No entry of that workflow names `t1`... */
  lemma NoEntryNamesT1()
    ensures var tasks := SubstringWorkflow().tasks;
            forall i, c, j :: 0 <= i < |tasks| && c in Categories && 0 <= j < |EntriesOf(tasks[i].1, c)| ==>
              EntriesOf(tasks[i].1, c)[j].target != "t1"
  {
    var tasks := SubstringWorkflow().tasks;
    forall i, c, j | 0 <= i < |tasks| && c in Categories && 0 <= j < |EntriesOf(tasks[i].1, c)|
      ensures EntriesOf(tasks[i].1, c)[j].target != "t1"
    {
      SubstringWorkflowEntries(i, c);
      assert "t10"[2] == '0';
    }
  }

  /** ...yet `t10` contains `t1`, so `t1` counts as claimed. */
  lemma T10ClaimsT1()
    ensures Claimed(SubstringWorkflow().tasks, "t1")
  {
    var tasks := SubstringWorkflow().tasks;
    SubstringWorkflowEntries(2, "on-success");
    assert "t1" <= "t10";
    assert EntryContains(EntriesOf(tasks[2].1, "on-success")[0], "t1");
    assert AnyContains(EntriesOf(tasks[2].1, "on-success"), "t1");
    assert "on-success" in Categories;
  }

  /** The suppression test is substring containment, not equality: the
      entry `t10` suppresses the implicit edge `a -> t1` although no entry
      names `t1`. */
  lemma ImplicitEdgeSuppressedBySubstring()
    ensures HasKey(SubstringWorkflow().tasks, "a")
    ensures IndirectEdges("w", SubstringWorkflow(), "a", SubstringWorkflow().tasks[0].1) == []
  {
    var wf := SubstringWorkflow();
    assert wf.tasks[0].0 == "a";
    assert KeyIndex(wf.tasks, "a") == 0;
    assert Successor(wf, "a") == Some("t1");
    T10ClaimsT1();
  }

  /** `t2` does not contain `t3`: `t3` is a prefix neither of `t2` (second
      character) nor of `2` (first character), nor of the empty suffix. */
  lemma T2LacksT3()
    ensures !Strings.Contains("t2", "t3")
  {
    Strings.NotPrefixAt("t3", "t2", 1);
    Strings.NotPrefixAt("t3", "2", 0);
    assert "t2"[1..] == "2" && "2"[1..] == "";
  }

  /** The qualified names of the chain document's nodes. */
  lemma Wf1Names()
    ensures "wf1" + "." + "t1" == "wf1.t1"
    ensures "wf1" + "." + "t2" == "wf1.t2"
    ensures "wf1" + "." + "t3" == "wf1.t3"
  {
  }

  /** The chain document with its own names: workflow `wf1`, tasks `t1`,
      `t2`, `t3`, actions `a1`, `a2`, `a3`. The graph is one cluster holding
      `wf1.t1`, `wf1.t2`, `wf1.t3`, the on-success edge `wf1.t1 -> wf1.t2`
      and the implicit edge `wf1.t2 -> wf1.t3`. */
  lemma ChainGraphInstance()
    ensures var ws := Propagated(SelectWorkflows(Content(Some([("wf1", Chain("t1", "t2", "t3", "a1", "a2", "a3"))]), [])));
            var clusters := AllClusters(ws);
            |clusters| == 1 &&
            |clusters[0].nodes| == 3 &&
            clusters[0].nodes[0].name == "wf1.t1" &&
            clusters[0].nodes[1].name == "wf1.t2" &&
            clusters[0].nodes[2].name == "wf1.t3" &&
            AllEdges(clusters, ws) == [Edge("wf1.t1", "wf1.t2", Some(Color("on-success"))),
                                       Edge("wf1.t2", "wf1.t3", None)]
  {
    T2LacksT3();
    Wf1Names();
    ChainGraph("wf1", "t1", "t2", "t3", "a1", "a2", "a3");
  }

  /** Tasks `a`, `b`, `c` in that order, where `a` has the on-success entry
      `c` and `b` declares no callback. */
  function SkipOver(a: string, b: string, c: string): Workflow
  {
    Workflow(None, [(a, Task(None, None, [("on-success", [Name(c)])], [])),
                    (b, Task(None, None, [], [])),
                    (c, Task(None, None, [], []))], [])
  }

  /** `b` declares no category and `c` follows it, yet the entry `c` of `a`
      claims `c`: the implicit edge `b -> c` is suppressed. */
  lemma CallbackSuppressesImplicit(w: string, a: string, b: string, c: string)
    requires a != b && a != c && b != c
    ensures HasKey(SkipOver(a, b, c).tasks, b)
    ensures !DeclaresCategory(SkipOver(a, b, c).tasks[1].1)
    ensures Successor(SkipOver(a, b, c), b) == Some(c)
    ensures IndirectEdges(w, SkipOver(a, b, c), b, SkipOver(a, b, c).tasks[1].1) == []
  {
    var wf := SkipOver(a, b, c);
    assert wf.tasks[1].0 == b;
    assert KeyIndex(wf.tasks, b) == 1;
    assert c <= c;
    var cbs := wf.tasks[0].1.callbacks;
    assert cbs[0].0 == "on-success";
    assert HasKey(cbs, "on-success") && KeyIndex(cbs, "on-success") == 0;
    var es := EntriesOf(wf.tasks[0].1, "on-success");
    assert es == [Name(c)];
    assert EntryContains(es[0], c);
    ClaimedAt(wf.tasks, 0, "on-success", c);
  }
}
