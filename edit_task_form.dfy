/**
 * The edit-task form's state and its transitions: what the two success callbacks, the selection
 * handlers, the retry button and the name field do to the state, when the form reports that it
 * has loaded, and which of its three faces (error, loading, ready) it shows.
 */
module EditTaskForm {
  import opened Wrappers
  import opened JsSemantics
  import opened ProcessingNodes
  import opened Presets

  /** The body of a JSON response: an array of records, or anything else. */
  datatype JsonResponse<T> = NotAnArray | JsonArray(items: seq<T>)

  /**
   * The error state. The component keeps the message text itself; the model keeps which message
   * it is (and, for the node error, the entries it lists), and `ErrorText` gives the text.
   */
  datatype FormError = NoError | NoNodes(tried: Option<seq<Node>>) | NoPresets

  /** The text the error state holds; it is empty, hence falsy, exactly when there is no error. */
  function ErrorText(e: FormError): (text: string)
    ensures text == "" <==> e.NoError?
  {
    match e
    case NoError => ""
    case NoNodes(tried) => NoNodesError(tried)
    case NoPresets => NoPresetsError
  }

  /**
   * What `render` shows: the error (whose text is `ErrorText(error)`) with a retry button, a
   * spinner, or the filled-in form.
   */
  datatype FormView = ErrorView(error: FormError) | LoadingView | ReadyView(node: Node, preset: Preset)

  /** What `getTaskInfo` returns; its options object is always empty and is not modelled. */
  datatype TaskInfo = TaskInfo(name: string, selectedNode: Option<Node>)

  /** `task !== null ? (task.name || "") : ""`. */
  function InitialName(task: Option<Task>): (name: string)
    ensures name == "" <==> task.None? || task.value.name.None? || task.value.name.value == ""
    ensures name != "" ==> Some(name) == task.value.name
  {
    if task.Some? then task.value.name.GetOr("") else ""
  }

  class FormState {
    // The component's props and the placeholder fixed at construction.
    const task: Option<Task>
    const hasFormLoadedListener: bool
    const namePlaceholder: string

    // The component's state.
    var error: FormError
    var name: string
    var loadedProcessingNodes: bool
    var loadedPresets: bool
    var selectedNode: Option<Node>
    var processingNodes: seq<Node>
    var selectedPreset: Option<Preset>
    var presets: seq<Preset>

    /** How many times `onFormLoaded` has been invoked. */
    var formLoadedCalls: nat

    /**
     * A list is published exactly when its loaded flag is set, and a published node list starts
     * with the "auto" entry; the selected preset belongs to the preset list; a node is selected only
     * once a node list is published; `onFormLoaded` has run only with both flags set.
     */
    ghost predicate Valid()
      reads this
    {
      (loadedProcessingNodes <==> processingNodes != []) &&
      (processingNodes != [] ==> AutoEntryFirst(processingNodes)) &&
      (loadedPresets <==> presets != []) &&
      (selectedPreset.Some? ==> selectedPreset.value in presets) &&
      (selectedNode.Some? ==> loadedProcessingNodes) &&
      (formLoadedCalls > 0 ==> loadedProcessingNodes && loadedPresets) &&
      namePlaceholder != ""
    }

    /** The component as constructed; `timestamp` stands for the current time in ISO format. */
    constructor (task: Option<Task>, hasFormLoadedListener: bool, timestamp: string)
      ensures Valid()
      ensures this.task == task && this.hasFormLoadedListener == hasFormLoadedListener
      ensures namePlaceholder == "Task of " + timestamp
      ensures error == NoError && name == InitialName(task)
      ensures !loadedProcessingNodes && !loadedPresets && selectedNode.None? && selectedPreset.None?
      ensures processingNodes == [] && presets == [] && formLoadedCalls == 0
    {
      this.task := task;
      this.hasFormLoadedListener := hasFormLoadedListener;
      namePlaceholder := "Task of " + timestamp;
      error := NoError;
      name := InitialName(task);
      loadedProcessingNodes, loadedPresets := false, false;
      selectedNode, processingNodes := None, [];
      selectedPreset, presets := None, [];
      formLoadedCalls := 0;
    }

    /** `notifyFormLoaded`: invoke the listener when there is one and both lists have loaded. */
    method NotifyFormLoaded()
      requires Valid()
      modifies this`formLoadedCalls
      ensures Valid()
      ensures formLoadedCalls ==
        old(formLoadedCalls) + (if hasFormLoadedListener && loadedPresets && loadedProcessingNodes then 1 else 0)
    {
      if hasFormLoadedListener && loadedPresets && loadedProcessingNodes {
        formLoadedCalls := formLoadedCalls + 1;
      }
    }

    /**
     * `selectNodeByKey`: select the first node whose key is loosely equal to `key`; when no key
     * matches, the selection stays as it was.
     */
    method SelectNodeByKey(key: JsValue)
      requires Valid()
      modifies this`selectedNode
      ensures Valid()
      ensures var found := FindNodeByKey(processingNodes, key);
        selectedNode == if found.Some? then found else old(selectedNode)
    {
      var node := FindNodeByKey(processingNodes, key);
      if node.Some? {
        assert node.value in processingNodes;
        selectedNode := node;
      }
    }

    /**
     * `selectPresetById`: select the first preset whose id is `parseInt(id)`; when none has it,
     * the selection stays as it was.
     */
    method SelectPresetById(id: JsValue)
      requires Valid()
      modifies this`selectedPreset
      ensures Valid()
      ensures var found := FindPresetById(presets, id);
        selectedPreset == if found.Some? then found else old(selectedPreset)
    {
      var preset := FindPresetById(presets, id);
      if preset.Some? {
        selectedPreset := preset;
      }
    }

    /** `handleNameChange`: the name field's new value. */
    method HandleNameChange(value: string)
      requires Valid()
      modifies this`name
      ensures Valid() && name == value
    {
      name := value;
    }

    /**
     * `retryLoad`: clear the error. The two requests it sends again are not part of the state;
     * their answers arrive as further calls of the two response handlers.
     */
    method RetryLoad()
      requires Valid()
      modifies this`error
      ensures Valid() && error == NoError
    {
      error := NoError;
    }

    /**
     * The success callback of the processing-node request. A body that is not an array changes
     * nothing (the component only schedules another request). An empty array, or one where no
     * node can stand behind "auto", sets the error and nothing else. Otherwise the list with its
     * "auto" entry is published, the initial selection is made and the listener is notified.
     */
    method OnProcessingNodesResponse(response: JsonResponse<NodeRecord>, random: real)
      requires Valid() && 0.0 <= random < 1.0
      modifies this`error, this`processingNodes, this`loadedProcessingNodes, this`selectedNode, this`formLoadedCalls
      ensures Valid()
      ensures response.NotAnArray? ==>
        error == old(error) && processingNodes == old(processingNodes) &&
        loadedProcessingNodes == old(loadedProcessingNodes) && selectedNode == old(selectedNode) &&
        formLoadedCalls == old(formLoadedCalls)
      ensures response.JsonArray? ==>
        var result := BuildNodeList(response.items, task, random);
        (result.Err? ==>
          error == NoNodes(result.error) &&
          processingNodes == old(processingNodes) && loadedProcessingNodes == old(loadedProcessingNodes) &&
          selectedNode == old(selectedNode) && formLoadedCalls == old(formLoadedCalls)) &&
        (result.Ok? ==>
          var found := FindNodeByKey(result.value, InitialSelectionKey(task));
          error == old(error) && processingNodes == result.value && loadedProcessingNodes &&
          selectedNode == (if found.Some? then found else old(selectedNode)) &&
          formLoadedCalls == old(formLoadedCalls) + (if hasFormLoadedListener && loadedPresets then 1 else 0))
    {
      if response.NotAnArray? {
        return;
      }
      var json := response.items;
      var result := AssembleNodeList(json, task, random);
      if result.Err? {
        error := NoNodes(result.error);
      } else {
        BuildNodeListShape(json, task, random, result.value);
        PublishNodeList(result.value);
      }
    }

    /**
     * The success path of the processing-node callback: publish the list, select the task's
     * initial key in it, and notify the listener.
     */
    method PublishNodeList(list: seq<Node>)
      requires Valid() && AutoEntryFirst(list)
      modifies this`processingNodes, this`loadedProcessingNodes, this`selectedNode, this`formLoadedCalls
      ensures Valid()
      ensures processingNodes == list && loadedProcessingNodes
      ensures var found := FindNodeByKey(list, InitialSelectionKey(task));
        selectedNode == (if found.Some? then found else old(selectedNode))
      ensures formLoadedCalls == old(formLoadedCalls) + (if hasFormLoadedListener && loadedPresets then 1 else 0)
    {
      processingNodes := list;
      loadedProcessingNodes := true;
      SelectNodeByKey(InitialSelectionKey(task));
      NotifyFormLoaded();
    }

    /**
     * The success callback of the presets request. A body that is not an array changes nothing;
     * an empty array sets the error and nothing else; otherwise the list is published with the
     * preset named "Default" (else the first) selected, and the listener is notified.
     */
    method OnPresetsResponse(response: JsonResponse<Preset>)
      requires Valid()
      modifies this`error, this`presets, this`loadedPresets, this`selectedPreset, this`formLoadedCalls
      ensures Valid()
      ensures response.NotAnArray? ==>
        error == old(error) && presets == old(presets) && loadedPresets == old(loadedPresets) &&
        selectedPreset == old(selectedPreset) && formLoadedCalls == old(formLoadedCalls)
      ensures response.JsonArray? && response.items == [] ==>
        error == NoPresets && presets == old(presets) && loadedPresets == old(loadedPresets) &&
        selectedPreset == old(selectedPreset) && formLoadedCalls == old(formLoadedCalls)
      ensures response.JsonArray? && response.items != [] ==>
        error == old(error) && presets == response.items && loadedPresets &&
        selectedPreset == ChoosePreset(response.items) &&
        formLoadedCalls == old(formLoadedCalls) + (if hasFormLoadedListener && loadedProcessingNodes then 1 else 0)
    {
      if response.NotAnArray? {
        return;
      }
      var list := response.items;
      if |list| == 0 {
        error := NoPresets;
        return;
      }
      var selected := list[0];
      var defaultPreset := FindByName(list, DefaultName);
      if defaultPreset.Some? {
        selected := defaultPreset.value;
      }
      loadedPresets, presets, selectedPreset := true, list, Some(selected);
      NotifyFormLoaded();
    }

    /** `getTaskInfo`: the name, falling back to the placeholder when blank, and the selected node. */
    function GetTaskInfo(): (info: TaskInfo)
      reads this
      requires Valid()
      ensures info.name != ""
      ensures name != "" ==> info.name == name
      ensures name == "" ==> info.name == namePlaceholder
      ensures info.selectedNode == selectedNode
    {
      TaskInfo(if name != "" then name else namePlaceholder, selectedNode)
    }

    /**
     * The face `render` shows: the error whenever there is one; the form when both lists have
     * loaded and both selections are made; the spinner otherwise.
     */
    function View(): (v: FormView)
      reads this
      ensures v.ErrorView? <==> error != NoError
      ensures v.ErrorView? ==> v.error == error
      ensures v.ReadyView? <==>
        error == NoError && loadedProcessingNodes && loadedPresets && selectedNode.Some? && selectedPreset.Some?
      ensures v.ReadyView? ==> Some(v.node) == selectedNode && Some(v.preset) == selectedPreset
    {
      if error != NoError then ErrorView(error)
      else if loadedProcessingNodes && selectedNode.Some? && loadedPresets && selectedPreset.Some? then
        ReadyView(selectedNode.value, selectedPreset.value)
      else LoadingView
    }

    /** In a ready form the preset shown is one of the list and the node list starts with "auto". */
    lemma ReadyViewIsConsistent()
      requires Valid()
      ensures View().ReadyView? ==>
        View().preset in presets && |processingNodes| >= 2 && processingNodes[0].caption == AutoCaption
    {
    }
  }
}
