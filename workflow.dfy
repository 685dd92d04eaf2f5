/** The parsed workflow document: workflows, their tasks, the callback
    categories and the colour each category is drawn in. */
module Workflows {
  import opened OrderedMaps
  import opened Strings

  /** The three callback categories, in the order of the colour table. */
  const Categories: seq<string> := ["on-error", "on-success", "on-complete"]

  /** The colour a category's badges and edges are drawn in. */
  function Color(category: string): string
    requires category in Categories
  {
    if category == "on-error" then "#F26B7A"
    else if category == "on-success" then "#97B503"
    else "#E866E8"
  }

  /** One entry of a callback list: a bare task name, or a one-key mapping
      whose key is the task name (its value plays no part in the graph). */
  datatype CallbackEntry = Name(target: string) | Keyed(target: string)

  /** Python's `name in entry`: substring search in a bare name, key
      membership in a one-key mapping. */
  predicate EntryContains(e: CallbackEntry, name: string)
  {
    match e
    case Name(s) => Contains(s, name)
    case Keyed(k) => k == name
  }

  /** Keys of a task or of `task-defaults` that hold callback lists. */
  type Callbacks = seq<(string, seq<CallbackEntry>)>

  /** Every key is a callback category, so that it has a colour. */
  predicate CategoryKeyed(d: Callbacks)
  {
    forall i :: 0 <= i < |d| ==> d[i].0 in Categories
  }

  /** A task: its `action`, its `workflow` reference, the keys it declares
      with callback lists (`callbacks`; only category keys are consulted)
      and the derived `default` written by the default propagation. */
  datatype Task = Task(action: Option<string>, workflowRef: Option<string>,
                       callbacks: Callbacks, default: Callbacks)

  /** A workflow: its optional `type`, its tasks in declaration order and
      its `task-defaults`. A missing `tasks` or `task-defaults` is empty. */
  datatype Workflow = Workflow(kind: Option<string>, tasks: seq<(string, Task)>,
                               taskDefaults: Callbacks)

  /** A top-level value of the document: a mapping (read as a workflow in
      the flat form) or anything else. */
  datatype TopValue = Mapping(body: Workflow) | Other

  /** The document: the value of its `workflows` key when it has one, and
      its other top-level entries. */
  datatype Content = Content(workflows: Option<seq<(string, Workflow)>>,
                             entries: seq<(string, TopValue)>)

  /** `task.get("action", task.get("workflow", "noop"))`. */
  function ActionOf(t: Task): string
  {
    match t.action
    case Some(a) => a
    case None => match t.workflowRef
      case Some(w) => w
      case None => "noop"
  }

  /** `task.get(category, [])`. */
  function EntriesOf(t: Task, category: string): seq<CallbackEntry>
  {
    match Get(t.callbacks, category)
    case Some(es) => es
    case None => []
  }

  /** Some key of the task is a category, whatever list it holds. */
  predicate DeclaresCategory(t: Task)
  {
    exists i :: 0 <= i < |t.callbacks| && t.callbacks[i].0 in Categories
  }

  /** `workflow.get("type", "direct") == "direct"`. */
  predicate IsDirect(wf: Workflow)
  {
    (match wf.kind case Some(k) => k case None => "direct") == "direct"
  }

  /** The top-level entries whose value is a mapping, as workflows. */
  function FlatWorkflows(entries: seq<(string, TopValue)>): (r: seq<(string, Workflow)>)
    ensures forall i :: 0 <= i < |r| ==> (r[i].0, Mapping(r[i].1)) in entries
    ensures forall i :: 0 <= i < |entries| && entries[i].1.Mapping? ==>
              (entries[i].0, entries[i].1.body) in r
  {
    if entries == [] then []
    else
      var rest := FlatWorkflows(entries[1..]);
      assert forall i :: 1 <= i < |entries| ==> entries[i] == entries[1..][i - 1];
      match entries[0].1
      case Mapping(wf) => [(entries[0].0, wf)] + rest
      case Other => rest
  }

  /** The workflows of a document: the `workflows` mapping when present,
      otherwise the flat form. */
  function SelectWorkflows(c: Content): (r: seq<(string, Workflow)>)
    ensures c.workflows.Some? ==> r == c.workflows.value
    ensures c.workflows.None? ==>
              (forall i :: 0 <= i < |r| ==> (r[i].0, Mapping(r[i].1)) in c.entries) &&
              (forall i :: 0 <= i < |c.entries| && c.entries[i].1.Mapping? ==>
                 (c.entries[i].0, c.entries[i].1.body) in r)
  {
    match c.workflows
    case Some(ws) => ws
    case None => FlatWorkflows(c.entries)
  }
}
