# Edit-task form: node and preset selection

This project models the decision core of the `EditTaskForm` component of the WebODM web client
(`app/static/app/js/components/EditTaskForm.jsx`). The form lets a user name a processing task,
pick the processing node that will run it and pick an options preset. The model covers:

- the success callback of the processing-node request (`ProcessingNodes`): how each record of the
  JSON array becomes a list entry (key = id, enabled = online), how the node behind the synthetic
  "auto" entry is chosen, the "auto" entry put at the front, the two "no usable processing
  nodes" errors, and the initial selection;
- the success callback of the presets request (`Presets`): the "no presets" error, and choosing the
  preset named "Default", else the first one;
- the form state (`EditTaskForm.FormState`, a class whose fields are the component's state):
  `selectNodeByKey`, `selectPresetById`, `retryLoad`, `handleNameChange`, `notifyFormLoaded`,
  `getTaskInfo`, and the error / loading / ready choice in `render`;
- the JavaScript semantics the code relies on (`JsSemantics`): the loose `==` between a string
  key and a number id, `String(n)` and `parseInt`. Each `find` and `filter` call of the component
  is a small recursive function next to the code that uses it;
- whole sequences of events on a fresh form (`FormScenarios`): both responses in either order,
  the error paths, and the Retry button.

The auto target is chosen as follows. If the task was auto-assigned and its node is among the
fetched nodes, it is the first fetched node with the task's node id, whether or not that node is
online. Otherwise it is a node that is
enabled and has the least queue count among enabled nodes. Each such node is reachable by some
value of the random number (`AnyLeastLoadedCanBeChosen`). `Math.random()` is the parameter
`random` in [0, 1). The index it selects is `~~(random * n)`, which is `Floor` for these
non-negative values.

Every `setState` takes effect at once, so each callback is one sequential method on `FormState`.
A response body that is not an array changes no state.

Some behaviour of the component is easy to miss when reading it. The scenario methods and lemmas
show each point:

- The listener `onFormLoaded` can run twice. Suppose the first node response is empty while the
  presets load. The loaded flags are never reset. So if, after Retry, the node answer arrives
  before the preset answer, each of the two answers invokes the listener. If the preset answer
  arrives first, it finds the nodes still unloaded, and the listener runs once
  (`FormLoadedAfterRetry`).
- The selected node need not belong to the current node list. A task assigned by hand keeps its
  old selection when a response after Retry no longer lists its node. The form is then ready and
  shows an entry the list does not hold (`StaleNodeAfterRetry`). `FormState.Valid` therefore does
  not claim that the selected node is a list member. It claims that a node is selected only once
  a list is published.
- A task assigned by hand to a node missing from the response never gets a node selected. The
  form stays on the spinner with both lists loaded (`MissingTaskNodeKeepsLoading`).
- A node response never fails for want of a tied node. When some node is enabled, the minimum
  queue count is reached by one of the enabled nodes (`ProcessingNodes.MinQueueNodes`), so the
  tied list is empty only when no node is enabled.

## Model

| member | source | states |
|---|---|---|
| `ProcessingNodes.MinQueueEnabled` | app/static/app/js/components/EditTaskForm.jsx:109 | The minimum over enabled entries is absent (`Infinity`) exactly when no entry is enabled; otherwise it is the queue count of some enabled entry and at most that of every enabled entry |
| `ProcessingNodes.MapNodes` | app/static/app/js/components/EditTaskForm.jsx:87-97 | Defines the entries built from the records: one per record, in order, with the record's id as id and key, its host and port as label and URL, its options, its queue count and its `online` flag as `enabled` (the properties are stated by `MapNodesFacts` and `BuildNodeListEntries`) |
| `ProcessingNodes.EnabledWithQueue` | app/static/app/js/components/EditTaskForm.jsx:110 | The filter keeps exactly the list members that are enabled and have the given queue count, and is no longer than the list |
| `ProcessingNodes.EnabledWithQueueCounts` | app/static/app/js/components/EditTaskForm.jsx:110 | The filter holds each qualifying entry exactly as often as the list does, and nothing else |
| `ProcessingNodes.MinQueueNodes` | app/static/app/js/components/EditTaskForm.jsx:109-110 | The tied set is empty exactly when no entry is enabled; it holds exactly the list members that are enabled and least loaded |
| `ProcessingNodes.MinQueueNodesCounts` | app/static/app/js/components/EditTaskForm.jsx:109-118 | The tied list holds each least-loaded enabled entry exactly as often as the node list does, and nothing else; with `PickIndexInterval`, the random pick therefore weighs each node by its occurrences |
| `ProcessingNodes.PickIndex` | app/static/app/js/components/EditTaskForm.jsx:118 | The random index into `n` candidates is below `n`, and it is the index `k` with `k <= random * n < k + 1` |
| `ProcessingNodes.PickIndexReaches` | app/static/app/js/components/EditTaskForm.jsx:118 | Every index below `n` is produced by some random number in [0, 1) |
| `ProcessingNodes.PickIndexInterval` | app/static/app/js/components/EditTaskForm.jsx:118 | Index `k` is picked exactly when `random` lies in [k / n, (k + 1) / n), an interval of width 1 / n, so every candidate is equally likely |
| `ProcessingNodes.FindById` | app/static/app/js/components/EditTaskForm.jsx:104 | The lookup finds nothing exactly when no entry has the id; otherwise it returns an entry with that id, and no earlier entry has it |
| `ProcessingNodes.ChooseAutoNode` | app/static/app/js/components/EditTaskForm.jsx:99-119 | The target is a list member. If the task was auto-assigned and its node is listed, the target is the first entry with that id. Otherwise a target exists exactly when some entry is enabled, and it is least loaded |
| `ProcessingNodes.AnyLeastLoadedCanBeChosen` | app/static/app/js/components/EditTaskForm.jsx:117-118 | Without an auto-assigned listed node, every least-loaded enabled entry is the target for some random number |
| `ProcessingNodes.NoNodesError` | app/static/app/js/components/EditTaskForm.jsx:72-78 | The "no usable processing nodes" message is non-empty and starts with its fixed sentence |
| `ProcessingNodes.BuildNodeList` | app/static/app/js/components/EditTaskForm.jsx:80-132 | The request fails without listing any entry exactly when the response is empty. When it fails for want of a node behind "auto", the error lists every mapped entry |
| `ProcessingNodes.AssembleNodeList` | app/static/app/js/components/EditTaskForm.jsx:80-127 | The step-by-step success path (map, find the task's node, else filter the least loaded and pick, then prepend) computes the published list or error |
| `ProcessingNodes.MapNodesFacts` | app/static/app/js/components/EditTaskForm.jsx:87-97 | Mapped entries have queue counts; an entry is enabled, or carries the task's node id, exactly when its record is online or carries that id |
| `ProcessingNodes.BuildNodeListFails` | app/static/app/js/components/EditTaskForm.jsx:80-115 | A node response fails exactly when it is empty, or when no record is online and the task's auto-assigned node is not among the records |
| `ProcessingNodes.BuildNodeListIsPrepend` | app/static/app/js/components/EditTaskForm.jsx:121-127 | A published list is the "auto" entry for the chosen target, then the mapped records |
| `ProcessingNodes.AutoEntry` | app/static/app/js/components/EditTaskForm.jsx:121-127 | Defines the entry put in front: the target's id and options, key "auto", label "Auto", always enabled, with no queue count and no URL (the properties are stated by `BuildNodeListShape`) |
| `ProcessingNodes.BuildNodeListShape` | app/static/app/js/components/EditTaskForm.jsx:121-132 | A published list is one longer than the response. Element 0 has key "auto", label "Auto" and is enabled. It has the id and options of a later entry. Every later entry is keyed by its id |
| `ProcessingNodes.BuildNodeListEntries` | app/static/app/js/components/EditTaskForm.jsx:87-97 | Entry `i + 1` carries record `i`'s id as id and key, its `online` flag as `enabled`, its options and its queue count |
| `ProcessingNodes.AutoTargetIsAssignedNode` | app/static/app/js/components/EditTaskForm.jsx:103-105 | For an auto-assigned task whose node is among the records, the "auto" entry has that id and the options of the first record with it, online or not |
| `ProcessingNodes.AutoTargetIsLeastLoaded` | app/static/app/js/components/EditTaskForm.jsx:107-119 | Otherwise the "auto" entry mirrors an online record whose queue count is the least among online records |
| `ProcessingNodes.LeastLoadedOnlineNodeWins` | app/static/app/js/components/EditTaskForm.jsx:107-119 | Nodes 1, 2, 3 with queue counts 2, 1, 0, node 3 offline: "auto" stands for node 2 whatever the random number |
| `ProcessingNodes.FindNodeByKey` | app/static/app/js/components/EditTaskForm.jsx:229 | The lookup returns a list member whose key is loosely equal to the key, and returns nothing exactly when no key is |
| `ProcessingNodes.FindNodeByKeyFirst` | app/static/app/js/components/EditTaskForm.jsx:229 | The entry found is the first whose key is loosely equal to the key |
| `ProcessingNodes.InitialSelectionKey` | app/static/app/js/components/EditTaskForm.jsx:134-143 | Defines the key selected once a list is published: the task's node id for a task assigned by hand, "auto" otherwise (the properties are stated by `InitialSelectionIsAuto` and `InitialSelectionIsTaskNode`) |
| `ProcessingNodes.InitialSelectionIsAuto` | app/static/app/js/components/EditTaskForm.jsx:134-143 | For a task without a node, or an auto-assigned one, the initial lookup finds the "auto" entry at index 0 |
| `ProcessingNodes.InitialSelectionIsTaskNode` | app/static/app/js/components/EditTaskForm.jsx:134-140 | For a task assigned by hand, the initial lookup finds an entry exactly when a record has the task's node id, and that entry has that id as key and id |
| `ProcessingNodes.SelectRenderedKey` | app/static/app/js/components/EditTaskForm.jsx:228-235 | Choosing any entry of the drop-down, whose value is the key as a string, finds an entry with a loosely equal key, at that entry's position or earlier |
| `Presets.FindByName` | app/static/app/js/components/EditTaskForm.jsx:182 | The lookup finds nothing exactly when no preset has the name; otherwise it returns a preset with that name, and no earlier preset has it |
| `Presets.ChoosePreset` | app/static/app/js/components/EditTaskForm.jsx:175-183 | Nothing is chosen exactly for an empty list. The choice is a list member. It is the first preset named "Default" when there is one, else `presets[0]` |
| `Presets.FindPresetById` | app/static/app/js/components/EditTaskForm.jsx:210 | The lookup returns a member whose id is `parseInt(id)`, and nothing exactly when no member has that id |
| `Presets.FindPresetByIdFirst` | app/static/app/js/components/EditTaskForm.jsx:210 | The preset found is the first whose id is `parseInt(id)` |
| `Presets.SelectRenderedPresetId` | app/static/app/js/components/EditTaskForm.jsx:205-211 | Choosing a preset in the drop-down finds a preset with its id, and that very preset when ids are distinct |
| `Presets.SelectPresetByNumber` | app/static/app/js/components/EditTaskForm.jsx:209-211 | A number id finds a preset exactly when some preset has that id |
| `JsSemantics.StringToNumber` | app/static/app/js/components/EditTaskForm.jsx:229 | Defines `Number(s)` for integral results: JavaScript whitespace trimmed at both ends, blank is 0, a `0x`/`0o`/`0b` prefix selects the radix, an optional sign before decimal digits, anything else NaN (`None`) |
| `JsSemantics.LooseEquals` | app/static/app/js/components/EditTaskForm.jsx:229 | Defines `==` between keys: same-type values compare by value, and a string is converted with `Number` before it is compared with a number |
| `JsSemantics.ParseInt` | app/static/app/js/components/EditTaskForm.jsx:210 | Defines `parseInt(s)` without a radix: leading whitespace skipped, an optional sign, `0x` selects radix 16, the longest run of digits read and the rest ignored, NaN (`None`) when there is no digit |
| `JsSemantics.DecimalStringValue` | app/static/app/js/components/EditTaskForm.jsx:229 | `Number` and `parseInt` both read a non-empty string of decimal digits as the value of those digits |
| `JsSemantics.ParseIntIgnoresTail` | app/static/app/js/components/EditTaskForm.jsx:210 | `parseInt` of decimal digits followed by text that does not continue the digits or form a `0x` prefix is the value of the digits alone |
| `JsSemantics.StringToNumberRoundTrip` | app/static/app/js/components/EditTaskForm.jsx:229 | An integral number's string converts back to the number, so a `<select>` value matches its numeric key under `==` |
| `JsSemantics.ParseIntRoundTrip` | app/static/app/js/components/EditTaskForm.jsx:210 | `parseInt` of the plain decimal rendering of an integer `n` is `n` |
| `JsSemantics.DigitsRoundTrip` | app/static/app/js/components/EditTaskForm.jsx:210 | Reading back the decimal digits of `n` gives `n` |
| `JsSemantics.AllDigitsArePrefix` | app/static/app/js/components/EditTaskForm.jsx:210 | `parseInt` reads the whole of a string made only of digits |
| `JsSemantics.LooseEqualsRenderedKey` | app/static/app/js/components/EditTaskForm.jsx:229 | A key is loosely equal to its own string form |
| `JsSemantics.AutoIsNotANumber` | app/static/app/js/components/EditTaskForm.jsx:137-139 | The key "auto" is loosely equal to no number, so a numeric task node never selects the "auto" entry |
| `EditTaskForm.FormState.constructor` | app/static/app/js/components/EditTaskForm.jsx:26-41 | Initial state: no error, the task's name or "", nothing loaded, nothing selected, empty lists, placeholder "Task of " + timestamp |
| `EditTaskForm.InitialName` | app/static/app/js/components/EditTaskForm.jsx:32 | The initial name is empty exactly when there is no task, or the task has no name or an empty one; otherwise it is the task's name |
| `EditTaskForm.FormState.NotifyFormLoaded` | app/static/app/js/components/EditTaskForm.jsx:56-60 | The listener runs, once, exactly when it exists and both loaded flags are set; `Valid` keeps "it has run only with both flags set" |
| `EditTaskForm.FormState.SelectNodeByKey` | app/static/app/js/components/EditTaskForm.jsx:228-231 | The selection becomes the first entry whose key is loosely equal to the key; with no match it stays as it was |
| `EditTaskForm.FormState.SelectPresetById` | app/static/app/js/components/EditTaskForm.jsx:209-212 | The selection becomes the first preset whose id is `parseInt(id)`; with no match it stays as it was |
| `EditTaskForm.FormState.HandleNameChange` | app/static/app/js/components/EditTaskForm.jsx:224-226 | The name becomes the field's value and nothing else changes |
| `EditTaskForm.FormState.RetryLoad` | app/static/app/js/components/EditTaskForm.jsx:159-163 | The error becomes "" and no other field changes |
| `EditTaskForm.ErrorText` | app/static/app/js/components/EditTaskForm.jsx:250-253 | The error text is empty, hence falsy, exactly when there is no error, so each of the two messages shows the error face |
| `EditTaskForm.FormState.OnProcessingNodesResponse` | app/static/app/js/components/EditTaskForm.jsx:69-149 | A non-array changes nothing. A failing array sets the "no usable processing nodes" error with the entries it tried, and nothing else. Otherwise the built list is published and flagged, the initial key is looked up (no-op on a miss), and the listener runs when presets are loaded |
| `EditTaskForm.FormState.PublishNodeList` | app/static/app/js/components/EditTaskForm.jsx:129-145 | The list is published and flagged, the task's initial key is looked up in it (no change on a miss), and the listener runs when presets are loaded |
| `EditTaskForm.FormState.OnPresetsResponse` | app/static/app/js/components/EditTaskForm.jsx:172-195 | A non-array changes nothing. An empty array sets the "no presets" error and nothing else. Otherwise the list is published and flagged with `ChoosePreset` selected, and the listener runs when nodes are loaded |
| `EditTaskForm.FormState.GetTaskInfo` | app/static/app/js/components/EditTaskForm.jsx:237-243 | The name is never empty: the state's name when non-empty, else the placeholder; the node is the selected node |
| `EditTaskForm.FormState.View` | app/static/app/js/components/EditTaskForm.jsx:249-265 | The error face shows exactly when there is an error, and it shows that error. The ready face shows exactly when there is no error, both flags are set and both selections are made, and it shows those selections |
| `EditTaskForm.FormState.ReadyViewIsConsistent` | app/static/app/js/components/EditTaskForm.jsx:262-274 | In a ready form the preset shown is in the preset list, and the node list has at least two entries and starts with the entry labelled "Auto" |
| `FormScenarios.LoadInEitherOrder` | app/static/app/js/components/EditTaskForm.jsx:129-145 | For a new task, in either response order, the listener runs exactly once and the form is ready with "auto" and the chosen preset selected |
| `FormScenarios.NoNodesShowsError` | app/static/app/js/components/EditTaskForm.jsx:80-83 | An empty node response shows the "no usable processing nodes" error and leaves the node list empty |
| `FormScenarios.NoPresetsNeverReady` | app/static/app/js/components/EditTaskForm.jsx:175-178 | An empty preset list shows the "no presets" error, and without another preset response the form is never ready |
| `FormScenarios.FormLoadedAfterRetry` | app/static/app/js/components/EditTaskForm.jsx:159-163 | After an empty first node response and Retry, the listener runs twice in total when the node answer precedes the preset answer, and once when the preset answer comes first |
| `FormScenarios.MissingTaskNodeKeepsLoading` | app/static/app/js/components/EditTaskForm.jsx:138-140 | A hand-assigned task node missing from the response leaves both lists loaded and the form on the spinner |
| `FormScenarios.StaleNodeAfterRetry` | app/static/app/js/components/EditTaskForm.jsx:228-231 | A hand-assigned task node dropped from the response after Retry stays selected, and the ready form shows an entry not in the list |
| `FormScenarios.TaskNodeNotListed` | app/static/app/js/components/EditTaskForm.jsx:87-97 | No published entry is keyed by an id that no record has, so the lookup of a hand-assigned node finds nothing |

## Left out

- The HTTP requests (`$.getJSON`), their `.fail` handlers and `abort()` on unmount are left out because they are network I/O. Only what the success callbacks do with the received body is modelled. A body that is not an array changes no state.
- The one-second retry timers are left out because they are timer-driven. They also call the bare names `loadProcessingNodes` / `loadPresets`, which are not in scope, and the preset path logs an undefined `json`.
- `Math.random()` is the `random` parameter, and `new Date().toISOString()` is the constructor's `timestamp` parameter. `let now = new Date()` in the node callback is unused.
- The rendering is left out: JSX, the drop-downs' `disabled` attribute, `EditPresetDialog` and `handleEditPreset`, and the Duplicate/Delete buttons, whose handlers are undefined. The error state is kept as which message it holds (with the entries the node message lists), and `ErrorText` gives its text. `Utils.html` escaping is not modelled.
- `ProcessingNodes.NoNodesError`: the line breaks and indentation inside the message are collapsed to single spaces.
- React's batching of `setState` is not modelled. Every update takes effect immediately and in order.
- `JsSemantics.NumberToString`: every integer is rendered as plain decimal digits. JavaScript does so only below 1e21 in magnitude (`String(1e21)` is "1e+21"), and integers above 2^53 are not exact doubles. The round trips with `parseInt` and `==` are therefore claimed for ids and queue counts below 2^53, which database ids are; IEEE rounding is not modelled.
- Numbers are integers. `StringToNumber` does not model the number literals with a fraction or an exponent (such as "1.0" or "1e0"), nor `Infinity`. They are treated as matching no id, but in JavaScript "1.0" == 1.
- The `options` object of `getTaskInfo` is always `{}` in the component and is not modelled.
