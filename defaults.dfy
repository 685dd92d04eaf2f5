/** Default propagation: every task receives the callback categories of its
    workflow's `task-defaults`, and a node label shows those that the task
    does not declare itself. */
module Defaults {
  import opened OrderedMaps
  import opened Workflows

  /** The comprehension of `_add_task`: the `task-defaults` entries whose key
      is a callback category, in their declaration order. Every category
      keeps the binding it had. */
  function CategoryDefaults(td: Callbacks): (r: Callbacks)
    ensures forall i :: 0 <= i < |r| ==> r[i].0 in Categories && r[i] in td
    ensures forall i :: 0 <= i < |td| && td[i].0 in Categories ==> td[i] in r
  {
    if td == [] then []
    else
      assert forall i :: 1 <= i < |td| ==> td[i] == td[1..][i - 1];
      (if td[0].0 in Categories then [td[0]] else []) + CategoryDefaults(td[1..])
  }

  lemma {:induction false} CategoryDefaultsGet(td: Callbacks, k: string)
    requires k in Categories
    ensures Get(CategoryDefaults(td), k) == Get(td, k)
  {
    if td != [] {
      var r := CategoryDefaults(td);
      var rest := CategoryDefaults(td[1..]);
      CategoryDefaultsGet(td[1..], k);
      GetCons(td, k);
      if td[0].0 in Categories {
        assert r == [td[0]] + rest;
        assert r[1..] == rest;
        GetCons(r, k);
      } else {
        assert r == rest;
      }
    }
  }

  /** Every task of the workflow with its `default` set to `d`. */
  function WithDefault(tasks: seq<(string, Task)>, d: Callbacks): seq<(string, Task)>
  {
    seq(|tasks|, i requires 0 <= i < |tasks| => (tasks[i].0, tasks[i].1.(default := d)))
  }

  function PropagateWorkflow(wf: Workflow): Workflow
  {
    wf.(tasks := WithDefault(wf.tasks, CategoryDefaults(wf.taskDefaults)))
  }

  /** The document after `_add_task`, as a value. */
  function Propagated(ws: seq<(string, Workflow)>): seq<(string, Workflow)>
  {
    seq(|ws|, i requires 0 <= i < |ws| => (ws[i].0, PropagateWorkflow(ws[i].1)))
  }

  /** `_add_task`: for every task of every workflow, `default` becomes the
      category entries of the workflow's `task-defaults`; nothing else
      changes. `name` and `filter` are accepted and ignored, as in the
      source. */
  method AddTask(workflows: seq<(string, Workflow)>, name: string, filter: seq<string>)
    returns (r: seq<(string, Workflow)>)
    ensures |r| == |workflows|
    ensures forall i :: 0 <= i < |r| ==>
              r[i].0 == workflows[i].0 &&
              r[i].1.kind == workflows[i].1.kind &&
              r[i].1.taskDefaults == workflows[i].1.taskDefaults &&
              |r[i].1.tasks| == |workflows[i].1.tasks|
    ensures forall i, j :: 0 <= i < |r| && 0 <= j < |r[i].1.tasks| ==>
              r[i].1.tasks[j].0 == workflows[i].1.tasks[j].0 &&
              r[i].1.tasks[j].1 == workflows[i].1.tasks[j].1.(default := CategoryDefaults(workflows[i].1.taskDefaults))
    ensures r == Propagated(workflows)
  {
    r := workflows;
    var i := 0;
    while i < |r|
      invariant 0 <= i <= |r| == |workflows|
      invariant forall k :: 0 <= k < i ==> r[k] == (workflows[k].0, PropagateWorkflow(workflows[k].1))
      invariant forall k :: i <= k < |r| ==> r[k] == workflows[k]
    {
      var workflowName := r[i].0;
      var workflow := r[i].1;
      var taskDefaults := workflow.taskDefaults;
      var tasks := workflow.tasks;
      var j := 0;
      while j < |tasks|
        invariant 0 <= j <= |tasks| == |workflow.tasks|
        invariant forall k :: 0 <= k < j ==>
                    tasks[k] == (workflow.tasks[k].0, workflow.tasks[k].1.(default := CategoryDefaults(taskDefaults)))
        invariant forall k :: j <= k < |tasks| ==> tasks[k] == workflow.tasks[k]
      {
        tasks := tasks[j := (tasks[j].0, tasks[j].1.(default := CategoryDefaults(taskDefaults)))];
        j := j + 1;
      }
      assert tasks == WithDefault(workflow.tasks, CategoryDefaults(taskDefaults));
      r := r[i := (workflowName, workflow.(tasks := tasks))];
      i := i + 1;
    }
  }

  /** `add_task_default`. */
  method AddTaskDefault(workflows: seq<(string, Workflow)>) returns (r: seq<(string, Workflow)>)
    ensures r == Propagated(workflows)
  {
    r := AddTask(workflows, "default", Categories);
  }

  /** `add_task_require`: the same computation as `add_task_default`. */
  method AddTaskRequire(workflows: seq<(string, Workflow)>) returns (r: seq<(string, Workflow)>)
    ensures r == Propagated(workflows)
  {
    r := AddTask(workflows, "required", ["required"]);
  }

  /** Propagating twice leaves what propagating once left: running
      `add_task_require` after `add_task_default` changes nothing. */
  lemma PropagatedIdempotent(ws: seq<(string, Workflow)>)
    ensures Propagated(Propagated(ws)) == Propagated(ws)
  {
    var p := Propagated(ws);
    forall i | 0 <= i < |ws|
      ensures Propagated(p)[i] == p[i]
    {
      var wf := ws[i].1;
      var d := CategoryDefaults(wf.taskDefaults);
      assert p[i].1.taskDefaults == wf.taskDefaults;
      assert WithDefault(WithDefault(wf.tasks, d), d) == WithDefault(wf.tasks, d);
    }
  }

  /** Position of a category in the colour table. */
  function Rank(category: string): nat
    requires category in Categories
  {
    if category == "on-error" then 0 else if category == "on-success" then 1 else 2
  }

  /** The inherited entry for one category, when the task does not declare it. */
  function Inherit(t: Task, category: string): Callbacks
  {
    if HasKey(t.default, category) && !HasKey(t.callbacks, category)
    then [(category, Get(t.default, category).value)]
    else []
  }

  /** Line 47 of the source: the task's `default` entries whose category the
      task does not declare as a key (a declared category overrides the
      default, even with an empty list), in category order. */
  function InheritedDefaults(t: Task): (r: Callbacks)
    ensures CategoryKeyed(r)
  {
    Inherit(t, "on-error") + Inherit(t, "on-success") + Inherit(t, "on-complete")
  }

  /** What the entry at position `i` of the filtered defaults is: a
      category the task does not declare, with its inherited list; the
      on-error entry comes first, then on-success, then on-complete. */
  lemma InheritedDefaultsAt(t: Task, i: nat)
    requires i < |InheritedDefaults(t)|
    ensures var r := InheritedDefaults(t);
            r[i].0 in Categories && !HasKey(t.callbacks, r[i].0) && Get(t.default, r[i].0) == Some(r[i].1)
    ensures var r := InheritedDefaults(t);
            var before := |Inherit(t, "on-error")|;
            var middle := |Inherit(t, "on-success")|;
            Rank(r[i].0) == (if i < before then 0 else if i < before + middle then 1 else 2)
  {
    var r := InheritedDefaults(t);
    var e, s, c := Inherit(t, "on-error"), Inherit(t, "on-success"), Inherit(t, "on-complete");
    assert r == e + s + c;
    if i < |e| {
      assert r[i] == e[0];
    } else if i < |e| + |s| {
      assert r[i] == s[0];
    } else {
      assert r[i] == c[0];
    }
  }

  /** The override filter keeps only inherited categories the task does not
      declare, each with its inherited list. */
  lemma InheritedDefaultsSound(t: Task)
    ensures var r := InheritedDefaults(t);
            forall i :: 0 <= i < |r| ==>
              r[i].0 in Categories && !HasKey(t.callbacks, r[i].0) &&
              Get(t.default, r[i].0) == Some(r[i].1)
  {
    forall i | 0 <= i < |InheritedDefaults(t)|
      ensures var r := InheritedDefaults(t);
              r[i].0 in Categories && !HasKey(t.callbacks, r[i].0) && Get(t.default, r[i].0) == Some(r[i].1)
    {
      InheritedDefaultsAt(t, i);
    }
  }

  /** The override filter keeps every inherited category the task does not
      declare. */
  lemma InheritedDefaultsComplete(t: Task)
    ensures var r := InheritedDefaults(t);
            forall k :: k in Categories && HasKey(t.default, k) && !HasKey(t.callbacks, k) ==>
              (k, Get(t.default, k).value) in r
  {
    var r := InheritedDefaults(t);
    var e, s, c := Inherit(t, "on-error"), Inherit(t, "on-success"), Inherit(t, "on-complete");
    assert r == e + s + c;
    forall k | k in Categories && HasKey(t.default, k) && !HasKey(t.callbacks, k)
      ensures (k, Get(t.default, k).value) in r
    {
      if k == "on-error" {
        assert r[0] == e[0];
      } else if k == "on-success" {
        assert r[|e|] == s[0];
      } else {
        assert r[|e| + |s|] == c[0];
      }
    }
  }

  /** The filtered defaults hold each category at most once, in category
      order. */
  lemma InheritedDefaultsOrdered(t: Task)
    ensures var r := InheritedDefaults(t);
            forall i, j :: 0 <= i < j < |r| ==> Rank(r[i].0) < Rank(r[j].0)
  {
    var r := InheritedDefaults(t);
    forall i, j | 0 <= i < j < |r|
      ensures Rank(r[i].0) < Rank(r[j].0)
    {
      InheritedDefaultsAt(t, i);
      InheritedDefaultsAt(t, j);
    }
  }

  /** Default propagation followed by the override filter: a task's label
      shows a category exactly when the workflow's `task-defaults` has it and
      the task does not declare it, with the `task-defaults` list. */
  lemma {:induction false} LabelDefaultsOfPropagated(wf: Workflow, j: nat, k: string)
    requires j < |wf.tasks| && k in Categories
    ensures var t := PropagateWorkflow(wf).tasks[j].1;
            HasKey(InheritedDefaults(t), k) <==> HasKey(wf.taskDefaults, k) && !HasKey(wf.tasks[j].1.callbacks, k)
    ensures var t := PropagateWorkflow(wf).tasks[j].1;
            forall i :: 0 <= i < |InheritedDefaults(t)| && InheritedDefaults(t)[i].0 == k ==>
              Some(InheritedDefaults(t)[i].1) == Get(wf.taskDefaults, k)
  {
    var t := PropagateWorkflow(wf).tasks[j].1;
    CategoryDefaultsGet(wf.taskDefaults, k);
    assert t.default == CategoryDefaults(wf.taskDefaults);
    assert t.callbacks == wf.tasks[j].1.callbacks;
    var r := InheritedDefaults(t);
    InheritedDefaultsSound(t);
    InheritedDefaultsComplete(t);
    if HasKey(wf.taskDefaults, k) && !HasKey(wf.tasks[j].1.callbacks, k) {
      assert (k, Get(t.default, k).value) in r;
    }
  }
}
