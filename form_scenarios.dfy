/**
 * Whole sequences of events on a freshly constructed form: the two responses arriving in either
 * order, the error paths, and the retry button. Each method plays one sequence and states what
 * the form then shows and how often it has reported that it loaded.
 */
module FormScenarios {
  import opened Wrappers
  import opened JsSemantics
  import opened ProcessingNodes
  import opened Presets
  import opened EditTaskForm

  /**
   * For a new task, whichever response arrives first, the form ends ready with the "auto" entry
   * and the default preset selected, and reports that it loaded exactly once.
   */
  method LoadInEitherOrder(json: seq<NodeRecord>, presets: seq<Preset>, random: real, timestamp: string, nodesFirst: bool)
    returns (calls: nat, view: FormView)
    requires 0.0 <= random < 1.0
    requires exists i :: 0 <= i < |json| && json[i].online
    requires presets != []
    ensures calls == 1
    ensures view.ReadyView? && view.node.key == AutoKey && Some(view.preset) == ChoosePreset(presets)
  {
    var form := new FormState(None, true, timestamp);
    ghost var list := Published(json, None, random);
    InitialSelectionIsAuto(json, None, random, list);
    if nodesFirst {
      form.OnProcessingNodesResponse(JsonArray(json), random);
      form.OnPresetsResponse(JsonArray(presets));
    } else {
      form.OnPresetsResponse(JsonArray(presets));
      form.OnProcessingNodesResponse(JsonArray(json), random);
    }
    calls := form.formLoadedCalls;
    view := form.View();
  }

  /** An empty node response shows the "no usable processing nodes" error, with no node listed. */
  method NoNodesShowsError(task: Option<Task>, random: real, timestamp: string)
    returns (view: FormView, nodes: seq<Node>)
    requires 0.0 <= random < 1.0
    ensures view == ErrorView(NoNodes(None)) && nodes == []
  {
    var form := new FormState(task, true, timestamp);
    form.OnProcessingNodesResponse(JsonArray([]), random);
    view := form.View();
    nodes := form.processingNodes;
  }

  /**
   * An empty preset list shows the "no presets" error, and with no further preset response the
   * form does not become ready, whatever the node responses.
   */
  method NoPresetsNeverReady(task: Option<Task>, before: JsonResponse<NodeRecord>, after: JsonResponse<NodeRecord>,
                             random: real, timestamp: string)
    returns (shown: FormView, later: FormView)
    requires 0.0 <= random < 1.0
    ensures shown == ErrorView(NoPresets)
    ensures !later.ReadyView?
  {
    var form := new FormState(task, true, timestamp);
    form.OnProcessingNodesResponse(before, random);
    form.OnPresetsResponse(JsonArray([]));
    shown := form.View();
    form.RetryLoad();
    form.OnProcessingNodesResponse(after, random);
    later := form.View();
  }

  /**
   * The node response first fails for want of nodes while the presets load, and Retry asks for
   * both again. The loaded flags are never reset, so the listener is invoked twice when the node
   * answer comes first (once per answer), but only once when the preset answer comes first (the
   * preset answer still finds the nodes unloaded).
   */
  method FormLoadedAfterRetry(json: seq<NodeRecord>, presets: seq<Preset>, random: real, timestamp: string,
                              nodesFirst: bool)
    returns (calls: nat)
    requires 0.0 <= random < 1.0
    requires exists i :: 0 <= i < |json| && json[i].online
    requires presets != []
    ensures calls == if nodesFirst then 2 else 1
  {
    var form := new FormState(None, true, timestamp);
    form.OnProcessingNodesResponse(JsonArray([]), random);
    form.OnPresetsResponse(JsonArray(presets));
    form.RetryLoad();
    ghost var list := Published(json, None, random);
    if nodesFirst {
      form.OnProcessingNodesResponse(JsonArray(json), random);
      form.OnPresetsResponse(JsonArray(presets));
    } else {
      form.OnPresetsResponse(JsonArray(presets));
      form.OnProcessingNodesResponse(JsonArray(json), random);
    }
    calls := form.formLoadedCalls;
  }

  /**
   * A task assigned by hand to a node that is not among the records: both lists load, nothing is
   * selected, and the form keeps showing the spinner.
   */
  method MissingTaskNodeKeepsLoading(task: Option<Task>, json: seq<NodeRecord>, presets: seq<Preset>,
                                     random: real, timestamp: string)
    returns (view: FormView, loaded: bool)
    requires 0.0 <= random < 1.0
    requires HasAssignedNode(task) && !task.value.autoProcessingNode
    requires exists i :: 0 <= i < |json| && json[i].online
    requires forall i :: 0 <= i < |json| ==> json[i].id != AssignedId(task)
    requires presets != []
    ensures loaded && view == LoadingView
  {
    var form := new FormState(task, true, timestamp);
    ghost var list := Published(json, task, random);
    InitialSelectionIsTaskNode(json, task, random, list);
    form.OnProcessingNodesResponse(JsonArray(json), random);
    form.OnPresetsResponse(JsonArray(presets));
    loaded := form.loadedProcessingNodes && form.loadedPresets;
    view := form.View();
  }

  /**
   * A task assigned by hand to a node present in the first response (at position `k`) but gone
   * from the response after Retry: the form becomes ready showing the old entry, which the new
   * list does not hold.
   */
  method StaleNodeAfterRetry(task: Option<Task>, first: seq<NodeRecord>, k: nat, second: seq<NodeRecord>,
                             presets: seq<Preset>, random: real, timestamp: string)
    returns (view: FormView, list: seq<Node>)
    requires 0.0 <= random < 1.0
    requires HasAssignedNode(task) && !task.value.autoProcessingNode
    requires k < |first| && first[k].online && first[k].id == AssignedId(task)
    requires exists i :: 0 <= i < |second| && second[i].online
    requires forall i :: 0 <= i < |second| ==> second[i].id != AssignedId(task)
    requires presets != []
    ensures view.ReadyView? && view.node.id == AssignedId(task) && view.node !in list
  {
    var form := TaskNodeThenNoPresets(task, first, k, random, timestamp);
    view, list := ReloadWithoutTaskNode(form, second, presets, random);
  }

  /**
   * The second half: Retry, then a node list without the selected node and a preset list. The
   * selection survives, so the form becomes ready with an entry the list does not hold.
   */
  method ReloadWithoutTaskNode(form: FormState, second: seq<NodeRecord>, presets: seq<Preset>, random: real)
    returns (view: FormView, list: seq<Node>)
    requires form.Valid() && 0.0 <= random < 1.0
    requires HasAssignedNode(form.task) && !form.task.value.autoProcessingNode
    requires form.selectedNode.Some? && form.selectedNode.value.key == Num(AssignedId(form.task))
    requires form.selectedNode.value.id == AssignedId(form.task)
    requires exists i :: 0 <= i < |second| && second[i].online
    requires forall i :: 0 <= i < |second| ==> second[i].id != AssignedId(form.task)
    requires presets != []
    modifies form
    ensures view.ReadyView? && view.node.id == AssignedId(form.task) && view.node !in list
  {
    RetryWithoutTaskNode(form, second, random);
    list := form.processingNodes;
    form.OnPresetsResponse(JsonArray(presets));
    view := form.View();
  }

  /** Retry, then a published node list without the selected node: the selection is kept. */
  method RetryWithoutTaskNode(form: FormState, second: seq<NodeRecord>, random: real)
    requires form.Valid() && 0.0 <= random < 1.0
    requires HasAssignedNode(form.task) && !form.task.value.autoProcessingNode
    requires form.selectedNode.Some? && form.selectedNode.value.key == Num(AssignedId(form.task))
    requires exists i :: 0 <= i < |second| && second[i].online
    requires forall i :: 0 <= i < |second| ==> second[i].id != AssignedId(form.task)
    modifies form
    ensures form.Valid() && form.error == NoError && form.loadedProcessingNodes
    ensures form.selectedNode == old(form.selectedNode) && form.selectedNode.value !in form.processingNodes
  {
    form.RetryLoad();
    ghost var secondList := Published(second, form.task, random);
    TaskNodeNotListed(second, form.task, random, secondList);
    form.OnProcessingNodesResponse(JsonArray(second), random);
    assert form.processingNodes == secondList;
  }

  /**
   * The first half of the sequence above: the node list arrives with the task's node in it, which
   * is selected, and then an empty preset list shows its error.
   */
  method TaskNodeThenNoPresets(task: Option<Task>, first: seq<NodeRecord>, k: nat, random: real, timestamp: string)
    returns (form: FormState)
    requires 0.0 <= random < 1.0
    requires HasAssignedNode(task) && !task.value.autoProcessingNode
    requires k < |first| && first[k].online && first[k].id == AssignedId(task)
    ensures fresh(form) && form.Valid() && form.task == task && form.hasFormLoadedListener
    ensures form.error == NoPresets && form.loadedProcessingNodes && !form.loadedPresets
    ensures form.selectedNode.Some? && form.selectedNode.value.key == Num(AssignedId(task))
    ensures form.selectedNode.value.id == AssignedId(task)
  {
    form := new FormState(task, true, timestamp);
    ghost var firstList := Published(first, task, random);
    ghost var selected := TaskNodeSelected(first, task, random, firstList);
    form.OnProcessingNodesResponse(JsonArray(first), random);
    assert form.selectedNode == Some(selected);
    form.OnPresetsResponse(JsonArray([]));
    assert form.selectedNode == Some(selected);
    assert form.error == NoPresets && form.loadedProcessingNodes && !form.loadedPresets;
  }

  /** A response with an online record is published. */
  lemma Published(json: seq<NodeRecord>, task: Option<Task>, random: real) returns (list: seq<Node>)
    requires 0.0 <= random < 1.0
    requires exists i :: 0 <= i < |json| && json[i].online
    ensures BuildNodeList(json, task, random) == Ok(list)
  {
    BuildNodeListFails(json, task, random);
    list := BuildNodeList(json, task, random).value;
  }

  /** A task assigned by hand to a listed node gets that node's entry selected. */
  lemma TaskNodeSelected(json: seq<NodeRecord>, task: Option<Task>, random: real, list: seq<Node>) returns (n: Node)
    requires 0.0 <= random < 1.0
    requires BuildNodeList(json, task, random) == Ok(list)
    requires HasAssignedNode(task) && !task.value.autoProcessingNode
    requires exists i :: 0 <= i < |json| && json[i].id == AssignedId(task)
    ensures FindNodeByKey(list, InitialSelectionKey(task)) == Some(n)
    ensures n.key == Num(AssignedId(task)) && n.id == AssignedId(task)
  {
    InitialSelectionIsTaskNode(json, task, random, list);
    n := FindNodeByKey(list, InitialSelectionKey(task)).value;
  }

  /**
   * No entry of a published list is keyed by the id of a node that none of the records has, so
   * looking up a task's hand-assigned node there finds nothing.
   */
  lemma TaskNodeNotListed(json: seq<NodeRecord>, task: Option<Task>, random: real, list: seq<Node>)
    requires 0.0 <= random < 1.0
    requires BuildNodeList(json, task, random) == Ok(list)
    requires HasAssignedNode(task) && !task.value.autoProcessingNode
    requires forall i :: 0 <= i < |json| ==> json[i].id != AssignedId(task)
    ensures forall n :: n in list ==> n.key != Num(AssignedId(task))
    ensures FindNodeByKey(list, InitialSelectionKey(task)).None?
  {
    InitialSelectionIsTaskNode(json, task, random, list);
    BuildNodeListShape(json, task, random, list);
    BuildNodeListEntries(json, task, random, list);
    forall n | n in list ensures n.key != Num(AssignedId(task)) {
      var k :| 0 <= k < |list| && list[k] == n;
      if k > 0 {
        assert list[k].key == Num(json[k - 1].id);
      }
    }
  }
}
