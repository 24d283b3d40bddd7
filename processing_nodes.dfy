/**
 * The processing-node list the form offers: how each fetched node record becomes a list entry,
 * how the "auto" target is chosen (the node the task was auto-assigned to, else a least-loaded
 * enabled node), the synthetic "auto" entry put in front, and lookups by key.
 */
module ProcessingNodes {
  import opened Wrappers
  import opened JsSemantics

  /** One element of the processing-node endpoint's JSON array. */
  datatype NodeRecord = NodeRecord(
    id: int, hostname: string, port: int, queueCount: int, online: bool, availableOptions: seq<string>)

  /**
   * The caption of an entry (the component's `label`): `host:port (queue: n)` for a fetched node,
   * "Auto" for the synthetic one. It is kept as its parts; `CaptionText` renders it.
   */
  datatype Caption = HostCaption(hostname: string, port: int, queueCount: int) | AutoCaption

  /** The address `http://host:port` of a fetched node, kept as its parts; `UrlText` renders it. */
  datatype Url = Url(hostname: string, port: int)

  /**
   * An entry of the form's node list. Entries made from a record have a queue count and a URL;
   * the synthetic "auto" entry has neither (they are undefined in the component).
   */
  datatype Node = Node(
    id: int, key: JsValue, caption: Caption, options: seq<string>,
    queueCount: Option<int>, enabled: bool, url: Option<Url>)

  /** The task being edited, as far as the form reads it. */
  datatype Task = Task(name: Option<string>, processingNode: Option<int>, autoProcessingNode: bool)

  const AutoKey: JsValue := Str("auto")

  /** `host:port (queue: n)`, or `Auto`. */
  function CaptionText(l: Caption): string {
    match l
    case HostCaption(h, p, q) => h + ":" + NumberToString(p) + " (queue: " + NumberToString(q) + ")"
    case AutoCaption => "Auto"
  }

  /** `http://host:port`. */
  function UrlText(u: Url): string {
    "http://" + u.hostname + ":" + NumberToString(u.port)
  }

  /** The list entry for a fetched record: its key is its id and it is enabled when it is online. */
  function MapNode(r: NodeRecord): Node {
    Node(r.id, Num(r.id), HostCaption(r.hostname, r.port, r.queueCount), r.availableOptions, Some(r.queueCount), r.online,
      Some(Url(r.hostname, r.port)))
  }

  /** `json.map(...)`: one entry per record, in order. */
  function MapNodes(json: seq<NodeRecord>): seq<Node> {
    seq(|json|, i requires 0 <= i < |json| => MapNode(json[i]))
  }

  /** Every entry carries a queue count, as the entries built from records do. */
  predicate AllMapped(nodes: seq<Node>) {
    forall i :: 0 <= i < |nodes| ==> nodes[i].queueCount.Some?
  }

  /**
   * `Math.min(...)` over the queue counts of the enabled entries; `None` stands for the
   * `Infinity` that `Math.min` returns when no entry is enabled.
   */
  function MinQueueEnabled(nodes: seq<Node>): (m: Option<int>)
    requires AllMapped(nodes)
    ensures m.None? <==> forall i :: 0 <= i < |nodes| ==> !nodes[i].enabled
    ensures m.Some? ==> exists i :: 0 <= i < |nodes| && nodes[i].enabled && nodes[i].queueCount == m
    ensures m.Some? ==> forall i :: 0 <= i < |nodes| && nodes[i].enabled ==> m.value <= nodes[i].queueCount.value
  {
    if nodes == [] then None
    else
      var rest := MinQueueEnabled(nodes[1..]);
      assert forall i :: 1 <= i < |nodes| ==> nodes[i] == nodes[1..][i - 1];
      if !nodes[0].enabled then rest
      else match rest
        case None => nodes[0].queueCount
        case Some(q) => Some(if nodes[0].queueCount.value <= q then nodes[0].queueCount.value else q)
  }

  /** `nodes.filter(node => node.enabled && node.queue_count === m)`, keeping the order. */
  function EnabledWithQueue(nodes: seq<Node>, m: int): (ties: seq<Node>)
    ensures |ties| <= |nodes|
    ensures forall n :: n in ties <==> n in nodes && n.enabled && n.queueCount == Some(m)
  {
    if nodes == [] then []
    else
      assert forall n :: n in nodes <==> n == nodes[0] || n in nodes[1..];
      (if nodes[0].enabled && nodes[0].queueCount == Some(m) then [nodes[0]] else []) + EnabledWithQueue(nodes[1..], m)
  }

  /** The enabled entries whose queue count equals the minimum over enabled entries. */
  function MinQueueNodes(nodes: seq<Node>): (ties: seq<Node>)
    requires AllMapped(nodes)
    ensures ties == [] <==> forall i :: 0 <= i < |nodes| ==> !nodes[i].enabled
    ensures forall n :: n in ties ==> n in nodes && LeastLoaded(nodes, n)
    ensures forall i :: 0 <= i < |nodes| && LeastLoaded(nodes, nodes[i]) ==> nodes[i] in ties
  {
    match MinQueueEnabled(nodes)
    case None => []
    case Some(m) =>
      var ties := EnabledWithQueue(nodes, m);
      assert ties != [] by {
        var i :| 0 <= i < |nodes| && nodes[i].enabled && nodes[i].queueCount == Some(m);
        assert nodes[i] in ties;
      }
      ties
  }

  /**
   * The filter keeps every qualifying entry as often as the list holds it and nothing else, so
   * the random pick among ties weighs each node by its occurrences in the list.
   */
  lemma {:induction false} EnabledWithQueueCounts(nodes: seq<Node>, m: int)
    ensures forall n :: multiset(EnabledWithQueue(nodes, m))[n] == (if n.enabled && n.queueCount == Some(m) then multiset(nodes)[n] else 0)
  {
    if nodes != [] {
      EnabledWithQueueCounts(nodes[1..], m);
      assert nodes == [nodes[0]] + nodes[1..];
    }
  }

  /** The tied list holds each least-loaded enabled entry exactly as often as the list does, and nothing else. */
  lemma MinQueueNodesCounts(nodes: seq<Node>)
    requires AllMapped(nodes)
    ensures forall n :: multiset(MinQueueNodes(nodes))[n] == if LeastLoaded(nodes, n) then multiset(nodes)[n] else 0
  {
    var min := MinQueueEnabled(nodes);
    forall n: Node | LeastLoaded(nodes, n) && n in nodes
      ensures min.Some? && n.queueCount == min
    {
      var i :| 0 <= i < |nodes| && nodes[i] == n;
      var k :| 0 <= k < |nodes| && nodes[k].enabled && nodes[k].queueCount == min;
      assert n.queueCount.value <= nodes[k].queueCount.value;
    }
    if min.Some? {
      EnabledWithQueueCounts(nodes, min.value);
      forall n: Node | n.enabled && n.queueCount == min && n in nodes
        ensures LeastLoaded(nodes, n)
      {
      }
    }
  }

  /** `n` is enabled and no enabled entry of `nodes` has a smaller queue count. */
  ghost predicate LeastLoaded(nodes: seq<Node>, n: Node)
    requires AllMapped(nodes)
  {
    n.enabled && n.queueCount.Some? &&
    forall i :: 0 <= i < |nodes| && nodes[i].enabled ==> n.queueCount.value <= nodes[i].queueCount.value
  }

  /**
   * `~~(Math.random() * len)`: the index a random number in [0, 1) selects among `len`
   * candidates (truncation coincides with Floor on a non-negative product).
   */
  function PickIndex(random: real, len: nat): (k: nat)
    requires 0.0 <= random < 1.0
    ensures len > 0 ==> k < len
    ensures k as real <= random * len as real < (k + 1) as real
  {
    assert 0.0 <= random * len as real;
    assert len > 0 ==> random * len as real < len as real;
    (random * len as real).Floor
  }

  /** `task && task.processing_node`: a task with a node id that is not null, undefined or 0. */
  predicate HasAssignedNode(task: Option<Task>) {
    task.Some? && task.value.processingNode.Some? && task.value.processingNode.value != 0
  }

  /** The task has a node and was assigned to it automatically (`auto_processing_node`). */
  predicate AutoAssigned(task: Option<Task>) {
    HasAssignedNode(task) && task.value.autoProcessingNode
  }

  /** The id of the node a task with an assigned node names. */
  function AssignedId(task: Option<Task>): int
    requires HasAssignedNode(task)
  {
    task.value.processingNode.value
  }

  /** The task was auto-assigned and one of the fetched entries carries its node's id. */
  ghost predicate AssignedNodePresent(nodes: seq<Node>, task: Option<Task>) {
    AutoAssigned(task) && exists i :: 0 <= i < |nodes| && nodes[i].id == AssignedId(task)
  }

  /**
   * `nodes.find(node => node.id === id)`: the first entry with that id, if any. The presets'
   * `find` by name is the same search over another record type and field (`Presets.FindByName`).
   */
  function FindById(nodes: seq<Node>, id: int): (r: Option<Node>)
    ensures r.None? <==> forall i :: 0 <= i < |nodes| ==> nodes[i].id != id
    ensures r.Some? ==>
      r.value.id == id &&
      exists i :: 0 <= i < |nodes| && nodes[i] == r.value && forall j :: 0 <= j < i ==> nodes[j].id != id
  {
    if nodes == [] then None
    else if nodes[0].id == id then Some(nodes[0])
    else
      var r := FindById(nodes[1..], id);
      assert forall i :: 1 <= i < |nodes| ==> nodes[i] == nodes[1..][i - 1];
      assert r.Some? ==> exists i :: 1 <= i < |nodes| && nodes[i] == r.value && forall j :: 0 <= j < i ==> nodes[j].id != id by {
        if r.Some? {
          var i :| 0 <= i < |nodes[1..]| && nodes[1..][i] == r.value && forall j :: 0 <= j < i ==> nodes[1..][j].id != id;
          assert nodes[i + 1] == r.value;
          assert forall j :: 1 <= j < i + 1 ==> nodes[j].id != id;
        }
      }
      r
  }

  /**
   * The node the "auto" entry stands for: the first entry with the auto-assigned task's node id,
   * else the least-loaded enabled entry at `random`'s position among those tied; none when no
   * entry is enabled.
   */
  function ChooseAutoNode(nodes: seq<Node>, task: Option<Task>, random: real): (a: Option<Node>)
    requires AllMapped(nodes) && 0.0 <= random < 1.0
    ensures a.Some? ==> a.value in nodes
    ensures AssignedNodePresent(nodes, task) ==>
      a.Some? && a.value.id == AssignedId(task) &&
      exists i :: 0 <= i < |nodes| && nodes[i] == a.value && forall j :: 0 <= j < i ==> nodes[j].id != AssignedId(task)
    ensures !AssignedNodePresent(nodes, task) ==>
      (a.Some? <==> exists i :: 0 <= i < |nodes| && nodes[i].enabled)
    ensures !AssignedNodePresent(nodes, task) && a.Some? ==> LeastLoaded(nodes, a.value)
  {
    var byTask := if AutoAssigned(task) then FindById(nodes, AssignedId(task)) else None;
    if byTask.Some? then byTask
    else
      var ties := MinQueueNodes(nodes);
      if ties == [] then None else Some(ties[PickIndex(random, |ties|)])
  }

  /** The synthetic entry put in front of the list, mirroring the chosen node's id and options. */
  function AutoEntry(target: Node): Node {
    Node(target.id, AutoKey, AutoCaption, target.options, None, true, None)
  }

  const NoNodesPrefix := "There are no usable processing nodes. "
  /** The advice closing the message; the line breaks and indentation inside it are collapsed to single spaces. */
  const NoNodesAdvice := "Make sure that at least one processing node is reachable and that you have granted the current user sufficient permissions to view the processing node (by going to Administration -- Processing Nodes -- Select Node -- Object Permissions -- Add User/Group and check CAN VIEW PROCESSING NODE). If you are bringing a node back online, it will take about 30 seconds for WebODM to recognize it."

  /** `<li><a href="url">label</a></li>` for one node the form tried to reach. */
  function TriedItem(n: Node): string {
    "<li><a href=\"" + (if n.url.Some? then UrlText(n.url.value) else "undefined") + "\">" + CaptionText(n.caption) + "</a></li>"
  }

  function TriedItems(nodes: seq<Node>): string {
    if nodes == [] then "" else TriedItem(nodes[0]) + TriedItems(nodes[1..])
  }

  /** The message shown when no node is usable, listing the nodes tried when there are any. */
  function NoNodesError(tried: Option<seq<Node>>): (msg: string)
    ensures msg != [] && NoNodesPrefix <= msg
  {
    var extra := match tried
      case None => ""
      case Some(nodes) => "We tried to reach:<ul>" + TriedItems(nodes) + "</ul>";
    NoNodesPrefix + extra + NoNodesAdvice
  }

  /** The task was auto-assigned and one of the fetched records has its node's id. */
  ghost predicate AssignedRecordPresent(json: seq<NodeRecord>, task: Option<Task>) {
    AutoAssigned(task) && exists i :: 0 <= i < |json| && json[i].id == AssignedId(task)
  }

  /**
   * The list the form publishes for a node response: the "auto" entry, then one entry per record
   * in order. On failure, the entries the "no usable processing nodes" message lists: none for an
   * empty response, all of them when none can stand behind "auto".
   */
  function BuildNodeList(json: seq<NodeRecord>, task: Option<Task>, random: real): (r: Result<seq<Node>, Option<seq<Node>>>)
    requires 0.0 <= random < 1.0
    ensures json == [] <==> r == Err(None)
    ensures r.Err? && r.error.Some? ==> r.error.value == MapNodes(json)
  {
    if json == [] then Err(None)
    else
      var nodes := MapNodes(json);
      match ChooseAutoNode(nodes, task, random)
      case None => Err(Some(nodes))
      case Some(a) => Ok([AutoEntry(a)] + nodes)
  }

  /**
   * The success path of the node request step by step: map the records, look for the task's
   * auto-assigned node, else pick among the least-loaded enabled ones, then put the "auto" entry
   * in front. It computes exactly `BuildNodeList`: the callback works by assigning `autoNode` and
   * returning early, which this method keeps, and the function states the value it arrives at.
   */
  method AssembleNodeList(json: seq<NodeRecord>, task: Option<Task>, random: real) returns (r: Result<seq<Node>, Option<seq<Node>>>)
    requires 0.0 <= random < 1.0
    ensures r == BuildNodeList(json, task, random)
  {
    if |json| == 0 {
      return Err(None);
    }
    var nodes := MapNodes(json);
    MapNodesFacts(json, task);
    var autoNode: Option<Node> := None;
    if AutoAssigned(task) {
      autoNode := FindById(nodes, AssignedId(task));
    }
    if autoNode.None? {
      var ties := MinQueueNodes(nodes);
      if |ties| == 0 {
        return Err(Some(nodes));
      }
      autoNode := Some(ties[PickIndex(random, |ties|)]);
    }
    nodes := [AutoEntry(autoNode.value)] + nodes;
    return Ok(nodes);
  }

  /** What the mapped entries inherit from their records. */
  lemma MapNodesFacts(json: seq<NodeRecord>, task: Option<Task>)
    ensures AllMapped(MapNodes(json))
    ensures AssignedRecordPresent(json, task) <==> AssignedNodePresent(MapNodes(json), task)
    ensures (exists i :: 0 <= i < |json| && json[i].online) <==> (exists i :: 0 <= i < |json| && MapNodes(json)[i].enabled)
  {
    var nodes := MapNodes(json);
    if AssignedNodePresent(nodes, task) {
      var i :| 0 <= i < |nodes| && nodes[i].id == AssignedId(task);
      assert json[i].id == AssignedId(task);
    }
    if AssignedRecordPresent(json, task) {
      var i :| 0 <= i < |json| && json[i].id == AssignedId(task);
      assert nodes[i].id == AssignedId(task);
    }
    if exists i :: 0 <= i < |json| && json[i].online {
      var i :| 0 <= i < |json| && json[i].online;
      assert nodes[i].enabled;
    }
    if exists i :: 0 <= i < |json| && nodes[i].enabled {
      var i :| 0 <= i < |json| && nodes[i].enabled;
      assert json[i].online;
    }
  }

  /**
   * A node response fails exactly when it is empty, or when no record is online and the task's
   * auto-assigned node is not among the records.
   */
  lemma BuildNodeListFails(json: seq<NodeRecord>, task: Option<Task>, random: real)
    requires 0.0 <= random < 1.0
    ensures BuildNodeList(json, task, random).Err? <==>
      json == [] || (!AssignedRecordPresent(json, task) && forall i :: 0 <= i < |json| ==> !json[i].online)
  {
    MapNodesFacts(json, task);
  }

  /** A published list is the "auto" entry for one of the mapped records, then the mapped records. */
  lemma BuildNodeListIsPrepend(json: seq<NodeRecord>, task: Option<Task>, random: real) returns (a: Node)
    requires 0.0 <= random < 1.0
    requires BuildNodeList(json, task, random).Ok?
    ensures a in MapNodes(json) && BuildNodeList(json, task, random).value == [AutoEntry(a)] + MapNodes(json)
    ensures AllMapped(MapNodes(json)) && ChooseAutoNode(MapNodes(json), task, random) == Some(a)
  {
    MapNodesFacts(json, task);
    a := ChooseAutoNode(MapNodes(json), task, random).value;
  }

  /**
   * A published list has one entry more than the response, the "auto" entry first, mirroring a
   * later entry, and every later entry keyed by its id.
   */
  lemma BuildNodeListShape(json: seq<NodeRecord>, task: Option<Task>, random: real, list: seq<Node>)
    requires 0.0 <= random < 1.0
    requires BuildNodeList(json, task, random) == Ok(list)
    ensures |list| == |json| + 1 && NodeListShape(list)
  {
    var a := BuildNodeListIsPrepend(json, task, random);
    var nodes := MapNodes(json);
    assert forall k :: 0 <= k < |nodes| ==> nodes[k].key == Num(nodes[k].id);
    PrependShape(a, nodes);
  }

  /** After the "auto" entry come the records' entries in order, each enabled when its record is online. */
  lemma BuildNodeListEntries(json: seq<NodeRecord>, task: Option<Task>, random: real, list: seq<Node>)
    requires 0.0 <= random < 1.0
    requires BuildNodeList(json, task, random) == Ok(list)
    ensures |list| == |json| + 1
    ensures forall i :: 0 <= i < |json| ==>
      list[i + 1].id == json[i].id && list[i + 1].key == Num(json[i].id) &&
      list[i + 1].enabled == json[i].online && list[i + 1].options == json[i].availableOptions &&
      list[i + 1].queueCount == Some(json[i].queueCount)
  {
    var a := BuildNodeListIsPrepend(json, task, random);
    PrependEntries(AutoEntry(a), json, list);
  }

  /** The entries after a first one are the records' entries, field by field. */
  lemma PrependEntries(first: Node, json: seq<NodeRecord>, list: seq<Node>)
    requires list == [first] + MapNodes(json)
    ensures |list| == |json| + 1
    ensures forall i :: 0 <= i < |json| ==>
      list[i + 1].id == json[i].id && list[i + 1].key == Num(json[i].id) &&
      list[i + 1].enabled == json[i].online && list[i + 1].options == json[i].availableOptions &&
      list[i + 1].queueCount == Some(json[i].queueCount)
  {
    forall i | 0 <= i < |json|
      ensures list[i + 1].id == json[i].id && list[i + 1].key == Num(json[i].id) &&
        list[i + 1].enabled == json[i].online && list[i + 1].options == json[i].availableOptions &&
        list[i + 1].queueCount == Some(json[i].queueCount)
    {
      var n := MapNode(json[i]);
      assert list[i + 1] == n;
    }
  }

  /** Putting an entry mirrored from a list of id-keyed entries in front gives the published shape. */
  lemma PrependShape(a: Node, nodes: seq<Node>)
    requires a in nodes
    requires forall k :: 0 <= k < |nodes| ==> nodes[k].key == Num(nodes[k].id)
    ensures NodeListShape([AutoEntry(a)] + nodes)
  {
    var list := [AutoEntry(a)] + nodes;
    var j :| 0 <= j < |nodes| && nodes[j] == a;
    assert list[j + 1] == a;
    assert forall k :: 1 <= k < |list| ==> list[k] == nodes[k - 1];
  }

  /** A list of at least two entries that starts with an enabled "auto" entry labelled "Auto". */
  ghost predicate AutoEntryFirst(list: seq<Node>) {
    |list| >= 2 && list[0].caption == AutoCaption && list[0].enabled
  }

  /**
   * What every published list looks like: the "auto" entry first, labelled "Auto", enabled, and
   * mirroring the id and options of a later entry; every later entry keyed by its own id.
   */
  ghost predicate NodeListShape(list: seq<Node>) {
    AutoEntryFirst(list) && list[0].key == AutoKey &&
    (exists j :: 1 <= j < |list| && list[j].id == list[0].id && list[j].options == list[0].options) &&
    forall j :: 1 <= j < |list| ==> list[j].key == Num(list[j].id)
  }

  /** `nodes.find(node => node.key == key)`. */
  function FindNodeByKey(nodes: seq<Node>, key: JsValue): (r: Option<Node>)
    ensures r.Some? ==> r.value in nodes && LooseEquals(r.value.key, key)
    ensures r.None? <==> forall i :: 0 <= i < |nodes| ==> !LooseEquals(nodes[i].key, key)
  {
    if nodes == [] then None
    else if LooseEquals(nodes[0].key, key) then Some(nodes[0])
    else
      assert forall i :: 1 <= i < |nodes| ==> nodes[i] == nodes[1..][i - 1];
      FindNodeByKey(nodes[1..], key)
  }

  /** `find` returns the first entry whose key is loosely equal to `key`. */
  lemma {:induction false} FindNodeByKeyFirst(nodes: seq<Node>, key: JsValue)
    ensures var r := FindNodeByKey(nodes, key);
      r.Some? ==>
        exists i :: 0 <= i < |nodes| && nodes[i] == r.value && forall j :: 0 <= j < i ==> !LooseEquals(nodes[j].key, key)
  {
    if nodes != [] && !LooseEquals(nodes[0].key, key) {
      var rest := nodes[1..];
      FindNodeByKeyFirst(rest, key);
      var r := FindNodeByKey(nodes, key);
      assert r == FindNodeByKey(rest, key);
      if r.Some? {
        var i :| 0 <= i < |rest| && rest[i] == r.value && forall j :: 0 <= j < i ==> !LooseEquals(rest[j].key, key);
        assert nodes[i + 1] == r.value;
        assert forall j :: 1 <= j < i + 1 ==> nodes[j] == rest[j - 1];
      }
    }
  }

  /** The key the form selects once a list is published. */
  function InitialSelectionKey(task: Option<Task>): JsValue {
    if HasAssignedNode(task) then (if task.value.autoProcessingNode then AutoKey else Num(AssignedId(task)))
    else AutoKey
  }

  /**
   * When the task was auto-assigned and its node is among the records, the "auto" entry mirrors
   * the first record with that id, online or not.
   */
  lemma AutoTargetIsAssignedNode(json: seq<NodeRecord>, task: Option<Task>, random: real, list: seq<Node>)
    requires 0.0 <= random < 1.0
    requires BuildNodeList(json, task, random) == Ok(list)
    requires AssignedRecordPresent(json, task)
    ensures |list| > 0 && list[0].id == AssignedId(task)
    ensures
      exists i :: 0 <= i < |json| && json[i].id == AssignedId(task) &&
        list[0].options == json[i].availableOptions && forall j :: 0 <= j < i ==> json[j].id != AssignedId(task)
  {
    var a := BuildNodeListIsPrepend(json, task, random);
    MapNodesFacts(json, task);
    assert list[0] == AutoEntry(a);
    MirrorFirstWithId(json, a, AssignedId(task));
  }

  /** An entry that is the first with a given id mirrors the first record with that id. */
  lemma MirrorFirstWithId(json: seq<NodeRecord>, a: Node, id: int)
    requires exists i :: 0 <= i < |json| && MapNodes(json)[i] == a && forall j :: 0 <= j < i ==> MapNodes(json)[j].id != id
    ensures
      exists i :: 0 <= i < |json| && json[i].id == a.id && a.options == json[i].availableOptions &&
        forall j :: 0 <= j < i ==> json[j].id != id
  {
    var nodes := MapNodes(json);
    var i :| 0 <= i < |json| && nodes[i] == a && forall j :: 0 <= j < i ==> nodes[j].id != id;
    forall j | 0 <= j < i ensures json[j].id != id {
      assert nodes[j].id == json[j].id;
    }
  }

  /**
   * Otherwise the "auto" entry mirrors an online record whose queue count is the least among the
   * online records.
   */
  lemma AutoTargetIsLeastLoaded(json: seq<NodeRecord>, task: Option<Task>, random: real, list: seq<Node>)
    requires 0.0 <= random < 1.0
    requires BuildNodeList(json, task, random) == Ok(list)
    requires !AssignedRecordPresent(json, task)
    ensures |list| > 0
    ensures
      exists i :: 0 <= i < |json| && json[i].online && list[0].id == json[i].id &&
        list[0].options == json[i].availableOptions &&
        forall j :: 0 <= j < |json| && json[j].online ==> json[i].queueCount <= json[j].queueCount
  {
    var a := BuildNodeListIsPrepend(json, task, random);
    MapNodesFacts(json, task);
    assert list[0] == AutoEntry(a);
    MirrorLeastLoaded(json, a);
  }

  /** A least-loaded entry mirrors an online record with the least queue count among online records. */
  lemma MirrorLeastLoaded(json: seq<NodeRecord>, a: Node)
    requires AllMapped(MapNodes(json)) && a in MapNodes(json) && LeastLoaded(MapNodes(json), a)
    ensures
      exists i :: 0 <= i < |json| && json[i].online && a.id == json[i].id &&
        a.options == json[i].availableOptions &&
        forall j :: 0 <= j < |json| && json[j].online ==> json[i].queueCount <= json[j].queueCount
  {
    var nodes := MapNodes(json);
    var i :| 0 <= i < |nodes| && nodes[i] == a;
    forall j | 0 <= j < |json| && json[j].online ensures json[i].queueCount <= json[j].queueCount {
      assert nodes[j].enabled && nodes[j].queueCount == Some(json[j].queueCount);
    }
  }

  /**
   * Every least-loaded enabled entry is the pick of some random number in [0, 1), so the random
   * tie-break can reach each node tied at the minimum (when the task's node is not in the list).
   */
  lemma AnyLeastLoadedCanBeChosen(nodes: seq<Node>, task: Option<Task>, n: Node)
    requires AllMapped(nodes) && !AssignedNodePresent(nodes, task)
    requires n in nodes && LeastLoaded(nodes, n)
    ensures exists random: real :: 0.0 <= random < 1.0 && ChooseAutoNode(nodes, task, random) == Some(n)
  {
    var ties := MinQueueNodes(nodes);
    assert n in ties by {
      var i :| 0 <= i < |nodes| && nodes[i] == n;
    }
    var k :| 0 <= k < |ties| && ties[k] == n;
    var random := PickIndexReaches(k, |ties|);
    if AutoAssigned(task) {
      assert FindById(nodes, AssignedId(task)).None?;
    }
    assert ChooseAutoNode(nodes, task, random) == Some(n);
  }

  /** Each index below `len` is the pick of some random number in [0, 1). */
  lemma PickIndexReaches(k: nat, len: nat) returns (random: real)
    requires k < len
    ensures 0.0 <= random < 1.0 && PickIndex(random, len) == k
  {
    random := k as real / len as real;
    assert random * len as real == k as real;
    assert 0.0 <= random < 1.0 by {
      assert (1.0 - random) * len as real == (len - k) as real;
    }
    assert (k as real).Floor == k;
    assert PickIndex(random, len) == k;
  }

  /**
   * Index `k` is picked exactly for the random numbers in [k / len, (k + 1) / len), an interval of
   * width 1 / len: every candidate is equally likely.
   */
  lemma PickIndexInterval(random: real, len: nat, k: nat)
    requires 0.0 <= random < 1.0 && len > 0
    ensures PickIndex(random, len) == k <==> k as real / len as real <= random < (k + 1) as real / len as real
  {
    var n := len as real;
    assert k as real / n * n == k as real && (k + 1) as real / n * n == (k + 1) as real;
    if k as real <= random * n {
      assert k as real / n <= random;
    }
    if random * n < (k + 1) as real {
      assert random < (k + 1) as real / n;
    }
  }

  /**
   * Once a list is published for a task without a node, or an auto-assigned one, the "auto"
   * entry is selected.
   */
  lemma InitialSelectionIsAuto(json: seq<NodeRecord>, task: Option<Task>, random: real, list: seq<Node>)
    requires 0.0 <= random < 1.0
    requires BuildNodeList(json, task, random) == Ok(list)
    requires !HasAssignedNode(task) || task.value.autoProcessingNode
    ensures |list| > 0 && list[0].key == AutoKey
    ensures FindNodeByKey(list, InitialSelectionKey(task)) == Some(list[0])
  {
    BuildNodeListShape(json, task, random, list);
    assert InitialSelectionKey(task) == AutoKey;
    assert LooseEquals(list[0].key, AutoKey);
  }

  /**
   * For a task assigned to a node by hand, the entry selected is keyed by that node's id, and
   * there is one exactly when a record has that id.
   */
  lemma InitialSelectionIsTaskNode(json: seq<NodeRecord>, task: Option<Task>, random: real, list: seq<Node>)
    requires 0.0 <= random < 1.0
    requires BuildNodeList(json, task, random) == Ok(list)
    requires HasAssignedNode(task) && !task.value.autoProcessingNode
    ensures var found := FindNodeByKey(list, InitialSelectionKey(task));
      (found.Some? <==> exists i :: 0 <= i < |json| && json[i].id == AssignedId(task)) &&
      (found.Some? ==> found.value.key == Num(AssignedId(task)) && found.value.id == AssignedId(task))
  {
    BuildNodeListShape(json, task, random, list);
    BuildNodeListEntries(json, task, random, list);
    var id := AssignedId(task);
    assert InitialSelectionKey(task) == Num(id);
    AutoIsNotANumber(id);
    LookupById(json, list, id);
  }

  /**
   * In a list whose first entry does not match the number `id` and whose other entries are keyed
   * by the ids of the records, looking `id` up finds an entry exactly when a record has that id,
   * and the entry found has it as key and id.
   */
  lemma LookupById(json: seq<NodeRecord>, list: seq<Node>, id: int)
    requires |list| == |json| + 1 && !LooseEquals(list[0].key, Num(id))
    requires forall j :: 1 <= j < |list| ==> list[j].key == Num(list[j].id)
    requires forall i :: 0 <= i < |json| ==> list[i + 1].id == json[i].id
    ensures var found := FindNodeByKey(list, Num(id));
      (found.Some? <==> exists i :: 0 <= i < |json| && json[i].id == id) &&
      (found.Some? ==> found.value.key == Num(id) && found.value.id == id)
  {
    var found := FindNodeByKey(list, Num(id));
    if exists i :: 0 <= i < |json| && json[i].id == id {
      var i :| 0 <= i < |json| && json[i].id == id;
      assert LooseEquals(list[i + 1].key, Num(id));
    }
    if found.Some? {
      var k :| 0 <= k < |list| && list[k] == found.value;
      assert k != 0;
      assert json[k - 1].id == id;
    }
  }

  /**
   * Choosing an entry in the drop-down reports its key as a string; looking that string up finds
   * an entry whose key is loosely equal to it, never at a later position.
   */
  lemma SelectRenderedKey(nodes: seq<Node>, k: nat)
    requires k < |nodes|
    ensures var found := FindNodeByKey(nodes, Str(ToJsString(nodes[k].key)));
      found.Some? && LooseEquals(found.value.key, Str(ToJsString(nodes[k].key))) &&
      exists i :: 0 <= i <= k && nodes[i] == found.value
  {
    var key := Str(ToJsString(nodes[k].key));
    LooseEqualsRenderedKey(nodes[k].key);
    FindNodeByKeyFirst(nodes, key);
    var found := FindNodeByKey(nodes, key);
    var i :| 0 <= i < |nodes| && nodes[i] == found.value && forall j :: 0 <= j < i ==> !LooseEquals(nodes[j].key, key);
    assert i <= k;
  }

  /**
   * Nodes 1, 2, 3 with queue counts 2, 1, 0, the third offline: whatever the random number, the
   * "auto" entry stands for node 2, the least-loaded online node.
   */
  lemma LeastLoadedOnlineNodeWins(json: seq<NodeRecord>, random: real)
    requires 0.0 <= random < 1.0 && |json| == 3
    requires json[0].id == 1 && json[0].queueCount == 2 && json[0].online
    requires json[1].id == 2 && json[1].queueCount == 1 && json[1].online
    requires json[2].id == 3 && json[2].queueCount == 0 && !json[2].online
    ensures BuildNodeList(json, None, random).Ok? && BuildNodeList(json, None, random).value[0].id == 2
  {
    BuildNodeListFails(json, None, random);
    var list := BuildNodeList(json, None, random).value;
    AutoTargetIsLeastLoaded(json, None, random, list);
    var i :| 0 <= i < |json| && json[i].online && list[0].id == json[i].id &&
      forall j :: 0 <= j < |json| && json[j].online ==> json[i].queueCount <= json[j].queueCount;
    assert json[i].queueCount <= json[1].queueCount;
    assert i == 0 || i == 1 || i == 2;
    assert i == 1;
    assert list[0].id == json[1].id;
  }
}
