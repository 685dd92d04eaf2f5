# mistral_dot: workflow document to task graph

This project models, in Dafny, the translator in `mistral_dot.py`, which
turns a Mistral workflow document into a Graphviz picture: one dashed
cluster per workflow, one box node per task, coloured edges for the
`on-error` / `on-success` / `on-complete` callbacks, and uncoloured
"implicit" edges that chain a task to the task declared after it.

The model covers these parts:

- **Default propagation** (`_add_task`, `add_task_default`, `add_task_require`).
  Every task receives the category entries of its workflow's
  `task-defaults`. A node label shows only the categories the task does
  not declare itself.
- **Labels** (`generate_label_html`). The label holds the task name, one
  badge per inherited callback entry in category-then-entry order, and the
  action. The action is escaped as `html.escape` does (exact table, quote
  mode), then every period is written as `&#46;`.
- **Nodes and clusters** (`generate_direct_nodes`). The cluster name is the
  workflow name with `.` and `-` removed. The cluster label is the
  workflow name. There is one node per task, named `workflow.task`, and the
  action falls back to the `workflow` reference, then to `noop`.
- **Edge resolution** (`generate_task_edges`, `generate_indirect_edges`,
  `generate_direct_edges`).
  - There is one explicit edge per callback entry. Each endpoint is
    qualified only when a node of that exact name exists, and falls back
    to the bare name otherwise.
  - There is at most one implicit edge per task. It is suppressed when the
    task declares any category key, when the task is last, or when some
    entry "contains" the successor's name. For a string entry that means
    substring containment; for a one-key mapping it means key equality.
- **The driver** (`generate_graph`):
  - it takes the workflows from the `workflows` key, or else from the
    flat form;
  - it propagates defaults twice;
  - it builds every cluster before any edge;
  - it resolves edges only for workflows of type `direct`.

Parsed YAML is modelled as ordered association lists: `seq<(string, V)>`,
where a lookup returns the first binding. A callback entry is
`Name(target)` for a bare string and `Keyed(target)` for a one-key
mapping. The pydot graph is the class `Graphs.Graph`, which holds a
sequence of clusters and a sequence of edges.

The imperative parts of the source stay imperative. Each of the following
is a method whose `ensures` ties the new state to a specification
function; the properties themselves are proved as lemmas about those
functions:

- the loops of `_add_task`;
- the badge accumulation of `generate_label_html`;
- the node loop of `generate_direct_nodes`;
- the node scan with its two found-flags and the early returns of the
  edge generators;
- the two loops of `generate_graph`.

Files:

- `strings.dfy`: the Python string operations;
- `ordered_maps.dfy`: ordered mappings;
- `workflow.dfy`: the document, the categories and their colours;
- `defaults.dfy`;
- `labels.dfy`;
- `graph.dfy`;
- `nodes.dfy`;
- `edges.dfy`;
- `assembler.dfy`;
- `scenarios.dfy`: small documents worked through end to end: a
  three-task chain, a workflow whose `task-defaults` one task overrides,
  and the substring rule of the implicit edges.

Two points about `mistral_dot.py` that the model makes explicit:

- **Implicit edges are not resolved.** Implicit edges join the two
  qualified names with no existence check and no fallback to bare names
  (`mistral_dot.py:94-96`).
- **A task that declares a category gets no implicit edge.** In the chain
  `t1` (on-success `t2`), `t2`, `t3`, `t1` gets no implicit edge because it
  declares a category key (line 82), so the substring test is never
  reached.

## Model

| member | source | states |
|---|---|---|
| Strings.Contains | mistral_dot.py:92 | Python's `sub in s` on strings: `sub` occurs contiguously somewhere in `s` |
| Strings.RemoveChar | mistral_dot.py:42 | `replace(c, "")` leaves no `c`, keeps every other character exactly as often as it occurred, and leaves a string without `c` unchanged; the order of what is kept is fixed by `RemoveCharOne` and `RemoveCharAppend` |
| Strings.RemoveCharOne | mistral_dot.py:42 | on one character, `replace(c, "")` gives nothing when it is `c` and the character itself otherwise |
| Strings.RemoveCharAppend | mistral_dot.py:42 | `replace(c, "")` works piece by piece over a concatenation, so the kept characters stay in their order |
| Strings.Join | mistral_dot.py:37 | `" ".join(parts)`: the parts in order, with the separator between neighbours and none at the ends |
| Strings.EscapeChar | mistral_dot.py:38 | one character through `html.escape` in quote mode: `&`, `<`, `>`, `"`, `'` become `&amp;`, `&lt;`, `&gt;`, `&quot;`, `&#x27;`; every other character stays |
| Strings.HtmlEscape | mistral_dot.py:38 | `html.escape(s)`: every character escaped, in order |
| Strings.ReplaceDots | mistral_dot.py:38 | `.replace(".", "&#46;")`: every period written as the entity, every other character kept, in order |
| Strings.ActionFooter | mistral_dot.py:38 | the escaped action holds no `.`, `<`, `>`, `"` or `'`, and unescaping it gives the original action back |
| Strings.UnescapeEncoding | mistral_dot.py:38 | round trip: reading the escape entities and `&#46;` back undoes the character-by-character encoding |
| Strings.FooterIsEncoding | mistral_dot.py:38 | `html.escape` followed by replacing periods is the same as encoding each character on its own |
| Strings.EncodingIsSafe | mistral_dot.py:38 | the encoding of any string holds none of `.`, `<`, `>`, `"`, `'` |
| Strings.EncodeCharIsSafe | mistral_dot.py:38 | the encoding of one character holds none of `.`, `<`, `>`, `"`, `'` |
| Strings.UnescapeEncodeChar | mistral_dot.py:38 | reading back the encoding of one character gives that character, whatever follows it |
| Strings.ReplaceDotsAppend | mistral_dot.py:38 | replacing periods works piece by piece over a concatenation |
| OrderedMaps.HasKey | mistral_dot.py:47 | Python's `k in mapping` (here `k not in task.keys()`, negated): some pair of the mapping has the key |
| OrderedMaps.KeyIndex | mistral_dot.py:84 | `index` finds the first position holding the key, and no earlier position holds it |
| OrderedMaps.Get | mistral_dot.py:57 | a lookup succeeds exactly when the key is bound |
| OrderedMaps.GetCons | mistral_dot.py:57 | a lookup returns the value of the first pair with that key: the head pair when it holds the key, else the lookup in the rest |
| OrderedMaps.KeyIndexOfUnique | mistral_dot.py:84 | with distinct keys, the index of the key at position i is i |
| Workflows.Categories | mistral_dot.py:7-11 | the keys of the colour table in a fixed order, on-error, on-success, on-complete; every loop over `mapping_cb_colors.keys()` (lines 56, 88, 109) runs over this sequence |
| Workflows.Color | mistral_dot.py:7-11 | the colour table: `#F26B7A` for on-error, `#97B503` for on-success, `#E866E8` for on-complete |
| Workflows.EntryContains | mistral_dot.py:92 | `task_next in v` for one entry: substring containment for a string entry, key equality for a one-key mapping |
| Workflows.ActionOf | mistral_dot.py:45 | `task.get("action", task.get("workflow", "noop"))`: the action, else the `workflow` reference, else `noop` |
| Workflows.EntriesOf | mistral_dot.py:57 | `task.get(category, [])`: the list bound to the category, else the empty list |
| Workflows.DeclaresCategory | mistral_dot.py:82 | some key of the task is one of the three categories |
| Workflows.IsDirect | mistral_dot.py:132 | `workflow.get("type", "direct") == "direct"`: the type is `direct` or absent |
| Workflows.FlatWorkflows | mistral_dot.py:123 | the flat form keeps exactly the top-level entries whose value is a mapping (both directions) |
| Workflows.SelectWorkflows | mistral_dot.py:122-124 | the `workflows` value when present, otherwise exactly the mapping-valued top-level entries |
| Defaults.CategoryDefaults | mistral_dot.py:108-110 | the comprehension keeps only category keys of `task-defaults`, and keeps every one of them |
| Defaults.CategoryDefaultsGet | mistral_dot.py:108-110 | every category has the same binding in the filtered defaults as in `task-defaults` (absent stays absent) |
| Defaults.WithDefault | mistral_dot.py:107-110 | every task of a list, in order, with its `default` set to the given defaults and nothing else changed |
| Defaults.PropagateWorkflow | mistral_dot.py:105-110 | one workflow after `_add_task`: every task's `default` is the category entries of that workflow's `task-defaults` |
| Defaults.Propagated | mistral_dot.py:104-111 | the whole document after `_add_task`, workflow by workflow, in order |
| Defaults.AddTask | mistral_dot.py:104-111 | workflow names, types, `task-defaults`, task names and everything else of a task stay the same; every task's `default` becomes the category entries of its workflow's `task-defaults`; `name` and `filter_` play no part |
| Defaults.AddTaskDefault | mistral_dot.py:113-114 | the same propagation as `_add_task` |
| Defaults.AddTaskRequire | mistral_dot.py:116-117 | the same propagation, whatever filter it passes |
| Defaults.PropagatedIdempotent | mistral_dot.py:126-127 | propagating a second time changes nothing, so `add_task_require` after `add_task_default` leaves every `default` as it was |
| Defaults.Inherit | mistral_dot.py:47 | the line-47 filter for one category: the `default` entry of that category is kept exactly when `default` holds it and the task itself has no key of that name |
| Defaults.InheritedDefaults | mistral_dot.py:47 | the label's defaults hold only category keys |
| Defaults.InheritedDefaultsAt | mistral_dot.py:46-47 | the i-th entry of a label's defaults is a category the task does not declare, with its inherited list, and its rank says whether it comes from the on-error, on-success or on-complete part |
| Defaults.InheritedDefaultsSound | mistral_dot.py:46-47 | every entry of a label's defaults is an inherited category that the task does not declare as a key, with its inherited list |
| Defaults.InheritedDefaultsComplete | mistral_dot.py:46-47 | every inherited category that the task does not declare as a key is among the label's defaults, with its inherited list |
| Defaults.InheritedDefaultsOrdered | mistral_dot.py:46-47 | the label's defaults hold each category at most once, in category order |
| Defaults.LabelDefaultsOfPropagated | mistral_dot.py:46-47 | after propagation, a label shows category k exactly when `task-defaults` has k and the task does not declare k, and then with the `task-defaults` list |
| Labels.Badge | mistral_dot.py:28 | one badge: `<FONT POINT-SIZE="10" COLOR="colour">text</FONT>` |
| Labels.CategoryBadges | mistral_dot.py:32-33 | the badges of one category: one per entry, in order, in the category's colour, showing the entry's task name |
| Labels.Label | mistral_dot.py:35-38 | the label text: `<`, the task name, `<BR />`, the badges joined with spaces, `<BR />`, the escaped action in a size-10 font, `>` |
| Labels.Badges | mistral_dot.py:31-33 | there are as many badges as callback entries over all categories |
| Labels.BadgesInOrder | mistral_dot.py:31-33 | the j-th entry of the k-th category gives the badge after all badges of earlier categories, in that category's colour, with the entry's task name as text |
| Labels.EntryCountPrefix | mistral_dot.py:31-33 | the entries of the categories before the k-th and of the k-th itself are at most all entries |
| Labels.GenerateLabelHtml | mistral_dot.py:27-39 | the loop's accumulated badges and the formatted string equal the label function |
| Graphs.HasNode | mistral_dot.py:65-70 | some node of some cluster has exactly that name |
| Graphs.Resolve | mistral_dot.py:62-74 | an edge endpoint: the qualified name when such a node exists, else the bare name |
| Graphs.Graph.constructor | mistral_dot.py:120 | a new graph has no clusters and no edges |
| Graphs.Graph.AddSubgraph | mistral_dot.py:52 | appends one cluster, edges unchanged |
| Graphs.Graph.AddEdge | mistral_dot.py:77 | appends one edge, clusters unchanged |
| Graphs.Graph.FindNodes | mistral_dot.py:64-70 | after the scan each flag is set exactly when some node of some cluster has that name |
| Graphs.HasNodeSnoc | mistral_dot.py:65-66 | a node exists in the clusters plus one more exactly when it is in the old clusters or in the new one |
| Graphs.HasNodeAt | mistral_dot.py:65-70 | a node at a known position of a known cluster is found by the scan |
| NodeBuilder.NodeOf | mistral_dot.py:45-49 | the node of one task: named `workflow.task`, labelled with the task name, its action with fallbacks and its inherited defaults |
| NodeBuilder.NodesOf | mistral_dot.py:44-50 | the nodes of a task list: one per task, in declaration order, each from its own task |
| NodeBuilder.ClusterName | mistral_dot.py:42 | the cluster name has no `.` and no `-`, keeps every other character of the workflow name as often, and equals the name when it has neither; the order of what is kept is fixed by `ClusterNameOne` and `ClusterNameAppend` |
| NodeBuilder.ClusterNameOne | mistral_dot.py:42 | one character of a workflow name: a period or hyphen disappears, anything else stays |
| NodeBuilder.ClusterNameAppend | mistral_dot.py:42 | the cluster name is built piece by piece, so the kept characters stay in their order |
| NodeBuilder.TaskNode | mistral_dot.py:45-49 | the node built for one task is named `workflow.task` and carries the label of the task name, its action with fallbacks and its inherited defaults |
| NodeBuilder.NodesOfSnoc | mistral_dot.py:44-50 | one more task of the loop adds exactly its own node after the nodes built so far |
| NodeBuilder.ClusterOf | mistral_dot.py:41-52 | sanitised name, the workflow name as label, one node per task named `workflow.task`, labelled with the task name, its action with fallbacks and its inherited defaults |
| NodeBuilder.QualifiedNamesDistinct | mistral_dot.py:49 | different task names give different qualified names |
| NodeBuilder.ClusterNodesDistinct | mistral_dot.py:44-49 | node names inside a cluster are pairwise distinct |
| NodeBuilder.GenerateDirectNodes | mistral_dot.py:41-52 | the node loop adds exactly the workflow's cluster and no edge |
| EdgeResolver.ExplicitEdge | mistral_dot.py:60-77 | the edge of one callback entry: parent and child resolved against the existing nodes, in the category's colour |
| EdgeResolver.CategoryEdges | mistral_dot.py:59-77 | the edges of one category's list: one per entry, in order |
| EdgeResolver.TaskEdgesFor | mistral_dot.py:56-77 | the explicit edges of a task for a list of categories, category after category |
| EdgeResolver.TaskEdges | mistral_dot.py:55-77 | `generate_task_edges` as a value: the categories in table order |
| EdgeResolver.AnyContains | mistral_dot.py:92 | `any(task_next in v for v in val)`: some entry of the list contains the name |
| EdgeResolver.Claimed | mistral_dot.py:87-93 | some entry of some category of some task of the workflow contains the name |
| EdgeResolver.Successor | mistral_dot.py:84-86 | the task declared right after the given one, or none when it is last |
| EdgeResolver.IndirectEdges | mistral_dot.py:80-97 | `generate_indirect_edges` as a value: nothing when the task declares a category key, when it is last, or when some entry contains the successor's name; otherwise one uncoloured edge between the two qualified names |
| EdgeResolver.DirectEdgesUpTo | mistral_dot.py:100-102 | the edges of the first n tasks, task by task: implicit edge first, then the explicit ones |
| EdgeResolver.DirectEdges | mistral_dot.py:99-102 | `generate_direct_edges` as a value: the edges of all tasks |
| EdgeResolver.TaskEdgesForSpec | mistral_dot.py:56-77 | exactly one explicit edge per entry of the listed categories; an edge is produced exactly when it is the resolved, coloured edge of some entry |
| EdgeResolver.TaskEdgesForNoDeclaration | mistral_dot.py:57-58 | a task with no category key produces no explicit edge |
| EdgeResolver.GenerateTaskEdges | mistral_dot.py:55-77 | the nested loops append exactly the explicit edges of the task, each endpoint resolved against the current nodes, and add no cluster |
| EdgeResolver.GenerateCategoryEdges | mistral_dot.py:59-77 | the loop over one category's list appends, in order, one edge per entry, each endpoint resolved against the current nodes, in the category's colour; no cluster is added |
| EdgeResolver.TaskEdgesForSnoc | mistral_dot.py:56-58 | one more category adds the edges of its own list after those of the earlier categories |
| EdgeResolver.CategoryEdgesSnoc | mistral_dot.py:59-77 | one more entry adds its own resolved edge after those of the earlier entries |
| EdgeResolver.ClaimedAt | mistral_dot.py:87-93 | one entry containing the successor's name is enough to suppress the implicit edge |
| EdgeResolver.ClaimedSnoc | mistral_dot.py:87-93 | a scan that finds no containing entry in one more task extends "nobody claims the successor" to that task |
| EdgeResolver.GenerateIndirectEdges | mistral_dot.py:80-97 | the key test, the successor lookup and the scan append at most the one implicit edge of the task, and only when none of the three suppressions applies |
| EdgeResolver.DirectEdgesStep | mistral_dot.py:100-102 | one more task adds its implicit edge and then its explicit edges |
| EdgeResolver.GenerateDirectEdges | mistral_dot.py:99-102 | for every task in order, the implicit then the explicit edges are appended; clusters unchanged |
| EdgeResolver.ChainImplicit | mistral_dot.py:80-97 | when no task declares a category key, every task except the last gets its implicit edge to the next task, and the last gets none |
| EdgeResolver.ChainExtend | mistral_dot.py:99-102 | appending the implicit edge of task m to the chain of the first m tasks gives the chain of the first m+1 tasks |
| EdgeResolver.ChainUpTo | mistral_dot.py:80-102 | without category keys, the first n tasks give the chain `t[i] -> t[i+1]` of the first n tasks that have a successor |
| EdgeResolver.DirectChainWithoutCallbacks | mistral_dot.py:80-102 | a workflow of N tasks with no category keys gets exactly N-1 implicit edges `wf.t[i] -> wf.t[i+1]`, in declaration order |
| EdgeResolver.NoDeclarationNoEntries | mistral_dot.py:57 | a task with no category key has an empty list for every category |
| GraphAssembler.AllClustersAt | mistral_dot.py:128-129 | the cluster of the i-th workflow sits at position i |
| GraphAssembler.AllClusters | mistral_dot.py:128-129 | one cluster per workflow |
| GraphAssembler.AllEdges | mistral_dot.py:131-133 | the edges of all workflows in order: those of each direct workflow, nothing for any other type |
| GraphAssembler.GenerateGraph | mistral_dot.py:119-133 | a fresh graph whose clusters are those of all propagated selected workflows, and whose edges are those of the direct workflows resolved against all clusters |
| GraphAssembler.AddAllNodes | mistral_dot.py:128-129 | the first loop appends the cluster of every workflow, in document order, and no edge |
| GraphAssembler.AddAllEdges | mistral_dot.py:131-133 | the second loop appends, workflow by workflow, the edges of the direct workflows resolved against the clusters already present, and adds no cluster |
| GraphAssembler.AllClustersSnoc | mistral_dot.py:128-129 | one more workflow adds its own cluster after the earlier ones |
| GraphAssembler.AllEdgesSnoc | mistral_dot.py:131-133 | one more workflow adds its edges when it is direct, and nothing otherwise |
| GraphAssembler.EveryTaskHasNode | mistral_dot.py:128-133 | because all clusters are built first, every task's qualified name is a node when edges are resolved |
| GraphAssembler.ExplicitEdgeToOwnTask | mistral_dot.py:62-77 | an explicit edge to a task of the same workflow joins the two qualified names, in the category's colour |
| GraphAssembler.SplitQualified | mistral_dot.py:62-63 | a qualified name whose workflow part has no period splits back into its workflow and task parts |
| GraphAssembler.QualifiedExactlyForOwnTasks | mistral_dot.py:62-72 | with period-free names and distinct workflow names, `workflow.x` is a node exactly when x is a task of that workflow |
| GraphAssembler.ExplicitEdgeToUnknownTarget | mistral_dot.py:71-72 | a callback to a name that is no task of the workflow gets the bare name as child endpoint |
| GraphAssembler.EdgesBeforeNodesAreBare | mistral_dot.py:128-133 | resolved against a graph without clusters, every explicit edge would join bare names: the order nodes-then-edges matters |
| GraphAssembler.NoEdgesWithoutDirect | mistral_dot.py:131-133 | a document without a direct-type workflow gets no edges |
| Scenarios.NoDefaultsPropagated | mistral_dot.py:104-111 | without `task-defaults`, and before any `default` is written, propagation leaves the workflows as they are |
| Scenarios.ChainPropagated | mistral_dot.py:104-111 | the chain document (`n1` with on-success `n2`, then `n2`, then `n3`) is unchanged by propagation |
| Scenarios.ChainTaskEdges | mistral_dot.py:55-77 | in the chain, `n1` has the one on-success edge `w.n1 -> w.n2`, and `n2`, `n3` have none |
| Scenarios.ChainNothingClaimsLast | mistral_dot.py:87-93 | in the chain, no entry contains `n3` when `n3` is no substring of `n2` |
| Scenarios.ChainIndirectEdges | mistral_dot.py:80-97 | in the chain, only `n2` gets an implicit edge, `w.n2 -> w.n3`: `n1` declares a category and `n3` is last |
| Scenarios.ChainFirstStep | mistral_dot.py:100-102 | the first task of the chain contributes only its explicit edge |
| Scenarios.ChainSecondStep | mistral_dot.py:100-102 | the second task of the chain contributes only its implicit edge |
| Scenarios.ChainThirdStep | mistral_dot.py:100-102 | the last task of the chain contributes nothing |
| Scenarios.ChainDirectEdges | mistral_dot.py:99-102 | the chain's edges, in order, are `w.n1 -> w.n2` (on-success) and `w.n2 -> w.n3` |
| Scenarios.ChainNodes | mistral_dot.py:41-52 | the chain document gives one cluster with the nodes `w.n1`, `w.n2`, `w.n3`, in order |
| Scenarios.ChainUnique | mistral_dot.py:44 | distinct task names make the chain's task keys distinct |
| Scenarios.ChainEdges | mistral_dot.py:128-133 | because the nodes exist first, the chain document gets exactly the two qualified edges above |
| Scenarios.ChainGraph | mistral_dot.py:119-133 | the whole translation of the chain document gives one cluster with three nodes `w.n1`, `w.n2`, `w.n3` and exactly the two edges |
| Scenarios.OverridingInherited | mistral_dot.py:46-47 | with `task-defaults` holding an on-error list, a task without callbacks inherits that list and a task with its own on-error list inherits nothing |
| Scenarios.OverridingLabels | mistral_dot.py:41-50 | the two node labels of that workflow carry exactly those inherited defaults |
| Scenarios.OverridingBadges | mistral_dot.py:31-33 | the inheriting task shows one badge per entry of the on-error list, in the on-error colour and in order; the overriding one shows none |
| Scenarios.SubstringWorkflowEntries | mistral_dot.py:87-89 | in `SubstringWorkflow` the only callback entry is `t10`, under on-success of `b` |
| Scenarios.NoEntryNamesT1 | mistral_dot.py:92 | no entry of `SubstringWorkflow` is named `t1` |
| Scenarios.T10ClaimsT1 | mistral_dot.py:92-93 | yet `t10` contains `t1`, so `t1` counts as claimed |
| Scenarios.ImplicitEdgeSuppressedBySubstring | mistral_dot.py:92-93 | the entry `t10` suppresses the implicit edge `a -> t1` although no entry names `t1` |
| Scenarios.T2LacksT3 | mistral_dot.py:92 | `t3` is no substring of `t2` |
| Scenarios.ChainGraphInstance | mistral_dot.py:119-133 | the chain document `wf1` with tasks `t1`, `t2`, `t3` and actions `a1`, `a2`, `a3` gives one cluster with the nodes `wf1.t1`, `wf1.t2`, `wf1.t3` and exactly the edges `wf1.t1 -> wf1.t2` (on-success) and `wf1.t2 -> wf1.t3` |
| Scenarios.CallbackSuppressesImplicit | mistral_dot.py:80-97 | with tasks `a`, `b`, `c` where `a` has the on-success entry `c`: `b` declares no category and `c` follows it, yet the implicit edge `b -> c` is not drawn, because the entry of `a` claims `c` |

## Left out

- YAML loading and the OrderedDict constructor and representer hooks
  (`mistral_dot.py:13-25`, `146-147`) are left out. The input is an
  already parsed document.
- Command-line handling and the exit code (`mistral_dot.py:140-144`) are
  left out. So is writing the picture (`mistral_dot.py:138`):
  `GenerateGraph` returns the graph instead.
- pydot is modelled only as the clusters and edges the translation adds.
  Drawing attributes are not modelled: `shape`, `style`, `arrowhead` and
  `rankdir`.
- Node names are compared unquoted. The source compares `get_name()`
  with `'"' + name + '"'` (lines 67-69), because pydot quotes names that
  contain a period.
- The reverse workflow type is not implemented in the source
  (`mistral_dot.py:134-136`). Non-direct workflows get nodes and no edges.
- Category order is fixed as on-error, on-success, on-complete. The source
  iterates a Python 2 dict (`mapping_cb_colors.keys()`), whose order is
  unspecified. Both the explicit edges and the label badges follow the
  fixed order.
- Defaults.InheritedDefaults: the label's defaults are built by a dict
  comprehension (line 47). Its iteration order is not defined, and the
  model lists it in category order.
- Workflows.SelectWorkflows: in the flat form the source builds a plain
  dict before wrapping it in an OrderedDict (line 123), so document order
  is lost. The model keeps document order, but its contract states only
  which workflows are selected.
- Defaults.AddTask: `_add_task` writes `default` into the nested
  dictionaries in place and returns the same object. The model computes
  the updated document as a new value. Aliasing is not modelled: the
  caller's reference seeing the change, and the twice-returned object.
- Ordered mappings in the model may repeat a key, which Python dicts
  cannot. Lookups use the first binding. Lemmas that need distinct keys
  require `UniqueKeys`.
- A callback entry that is neither a string nor a one-key mapping is not
  modelled. A mapping entry is modelled with its one key:
  - the badge and the explicit edge use its first key;
  - the containment test would test all keys of a multi-key mapping.
- A category key whose value is `null` is not modelled.
- A category value must be a list of entries in the model. A bare string
  such as `on-success: t2` cannot be written. The source iterates such a
  string character by character:
  - one explicit edge per character (line 59);
  - one label badge per character (line 33);
  - one containment test per character in the implicit-edge scan
    (line 92).
- A `default` key written in the document by hand is overwritten by
  propagation, and the model has no such key.
- A non-string action is not modelled.
- The source mixes Python 2 idioms (`iteritems`, `keys()[0]`) with the
  Python 3 `html` module. The model gives each operation its evident
  meaning: `html.escape` with `quote=True`.
- Node names can coincide across clusters. For example, workflow `a.b`
  with task `c` and workflow `a` with task `b.c` both give `a.b.c`. The
  model keeps this, as the source does. The exact-resolution lemma
  `GraphAssembler.QualifiedExactlyForOwnTasks` therefore assumes names
  without periods.
- Repeatability: `GraphAssembler.GenerateGraph` determines its result from
  the document alone, so two runs on the same document give the same
  graph. No separate lemma states this.
