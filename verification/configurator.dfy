/**
 * The `ProcessConfigurator` component as a class: its fields are the
 * component's state, each event handler is a method that updates them.
 * Canvas objects are represented by the `Group` and `Connection` records of
 * `groups` and `connections`; node and line identity are the fresh `key` and
 * `line` numbers handed out by `nextKey` and `nextLine`.
 */
module Configurator {
  import opened Wrappers
  import opened JsText
  import opened Graph
  import opened Layout
  import opened Serializer
  import opened Editing
  import opened Loading

  /** A snapshot of every field, used to say what a handler leaves alone. */
  datatype EditorState = EditorState(
    groups: seq<Group>,
    connections: seq<Connection>,
    selectedGroup: Option<Key>,
    selectedConnection: Option<LineId>,
    processName: string,
    stepsToComplete: string,
    selectedTemplateId: Option<string>,
    savedTemplateId: Option<string>,
    templates: seq<TemplateInfo>,
    logicEditGroup: Option<Key>,
    logicConditionInput: string,
    allowedStepIds: seq<int>,
    nextKey: nat,
    nextLine: nat)

  class ProcessConfigurator {
    var groups: seq<Group>
    var connections: seq<Connection>
    var selectedGroup: Option<Key>
    var selectedConnection: Option<LineId>
    var processName: string
    var stepsToComplete: string
    var selectedTemplateId: Option<string>
    var savedTemplateId: Option<string>
    var templates: seq<TemplateInfo>
    var logicEditGroup: Option<Key>
    var logicConditionInput: string
    var allowedStepIds: seq<int>
    var nextKey: nat
    var nextLine: nat

    ghost function State(): EditorState
      reads this
    {
      EditorState(groups, connections, selectedGroup, selectedConnection, processName, stepsToComplete,
                  selectedTemplateId, savedTemplateId, templates, logicEditGroup, logicConditionInput,
                  allowedStepIds, nextKey, nextLine)
    }

    ghost predicate Valid()
      reads this
    {
      Consistent(groups, connections, nextKey, nextLine, selectedGroup, selectedConnection)
    }

    /** The nodes, edges and counters, the part of the state the loader changes. */
    ghost function Drawing(): Canvas
      reads this
    {
      Canvas(groups, connections, nextKey, nextLine)
    }

    /** An empty canvas with nothing selected and no template chosen. */
    constructor()
      ensures Valid()
      ensures State() == EditorState([], [], None, None, "", "", None, None, [], None, "", [], 0, 0)
    {
      groups := [];
      connections := [];
      selectedGroup := None;
      selectedConnection := None;
      processName := "";
      stepsToComplete := "";
      selectedTemplateId := None;
      savedTemplateId := None;
      templates := [];
      logicEditGroup := None;
      logicConditionInput := "";
      allowedStepIds := [];
      nextKey := 0;
      nextLine := 0;
    }

    /** `wiredTemplates`: the template list arrives, or an error empties it. */
    method ReceiveTemplates(data: Option<seq<TemplateInfo>>)
      modifies this
      ensures State() == old(State()).(templates := if data.Some? then data.value else [])
    {
      templates := if data.Some? then data.value else [];
    }

    method HandleTemplateChange(value: Option<string>)
      modifies this
      ensures State() == old(State()).(selectedTemplateId := value)
    {
      selectedTemplateId := value;
    }

    method HandleProcessNameChange(value: string)
      modifies this
      ensures State() == old(State()).(processName := value)
    {
      processName := value;
    }

    method HandleStepsToCompleteChange(value: string)
      modifies this
      ensures State() == old(State()).(stepsToComplete := value)
    {
      stepsToComplete := value;
    }

    // ---------------------------------------------------------- adding nodes

    /**
     * `addStep`: appends a step node under a fresh key, numbered with the
     * smallest positive number no node name reads back as.
     */
    method AddStep(spec: Option<StepData>) returns (k: Key, n: int)
      requires Valid()
      modifies this
      ensures Valid()
      ensures n >= 1 && n !in UsedStepNumbers(old(groups))
      ensures forall j :: 1 <= j < n ==> j in UsedStepNumbers(old(groups))
      ensures n == NextStepNumber(old(groups))
      ensures k == old(nextKey)
      ensures groups == old(groups) + [NewStep(k, n, spec, selectedTemplateId, templates)]
      ensures State() == old(State()).(groups := groups, nextKey := old(nextKey) + 1)
      ensures !HasKey(old(groups), k)
    {
      n := SmallestUnused(UsedStepNumbers(groups));
      k := nextKey;
      HasKeyIff(groups, k);
      var g := NewStep(k, n, spec, selectedTemplateId, templates);
      ghost var s0 := State();
      ConsistentAddNode(groups, connections, g, nextKey, nextLine, selectedGroup, selectedConnection);
      groups := groups + [g];
      nextKey := nextKey + 1;
      assert State() == s0.(groups := s0.groups + [g], nextKey := s0.nextKey + 1);
    }

    /**
     * `addLogicStep`: appends a logic diamond under a fresh key, numbered one
     * past the logic nodes whose names carry a number.
     */
    method AddLogicStep(spec: Option<LogicSpec>) returns (k: Key, n: nat)
      requires Valid()
      modifies this
      ensures Valid()
      ensures k == old(nextKey) && n == NumberedLogicCount(old(groups)) + 1
      ensures groups == old(groups) + [NewLogic(k, n, spec)]
      ensures Drawing() == WithLogic(old(Drawing()), LogicNode(old(Drawing()), spec))
      ensures State() == old(State()).(groups := groups, nextKey := old(nextKey) + 1)
      ensures forall j :: HasKey(old(groups), j) ==> HasKey(groups, j) && At(groups, j) == At(old(groups), j)
      ensures HasKey(groups, k) && At(groups, k).kind == Logic
    {
      k := nextKey;
      n := NextLogicNumber(groups);
      var g := NewLogic(k, n, spec);
      LogicNodeOf(Drawing(), spec);
      PushNode(g);
    }

    /** Pushes the node `g`, which carries the next key, and advances the key counter. */
    method PushNode(g: Group)
      requires Valid() && g.key == nextKey
      modifies this
      ensures Valid()
      ensures groups == old(groups) + [g]
      ensures State() == old(State()).(groups := groups, nextKey := old(nextKey) + 1)
      ensures forall j :: HasKey(old(groups), j) ==> HasKey(groups, j) && At(groups, j) == At(old(groups), j)
      ensures HasKey(groups, g.key) && At(groups, g.key) == g
      ensures g.kind == Logic ==> Drawing() == WithLogic(old(Drawing()), g)
    {
      ghost var s0 := State();
      ConsistentAddNode(groups, connections, g, nextKey, nextLine, selectedGroup, selectedConnection);
      groups := groups + [g];
      nextKey := nextKey + 1;
      assert State() == s0.(groups := s0.groups + [g], nextKey := s0.nextKey + 1);
    }

    /** `handleAddStep`: adds a step only once a template is selected. */
    method HandleAddStep() returns (added: Option<Key>)
      requires Valid()
      modifies this
      ensures Valid()
      ensures added.None? <==> selectedTemplateId.None? || selectedTemplateId.value == ""
      ensures added.None? ==> State() == old(State())
      ensures added.Some? ==>
        && added.value == old(nextKey)
        && State() == old(State()).(
             groups := old(groups) + [NewStep(old(nextKey), NextStepNumber(old(groups)), None,
                                              selectedTemplateId, templates)],
             nextKey := old(nextKey) + 1)
        && ParseStepNumber(groups[|old(groups)|].name) == Some(NextStepNumber(old(groups)))
    {
      if selectedTemplateId.None? || selectedTemplateId.value == "" {
        added := None;
      } else {
        var k, n := AddStep(None);
        added := Some(k);
      }
    }

    /** `handleAddLogic` once the canvas is ready. */
    method HandleAddLogic() returns (k: Key)
      requires Valid()
      modifies this
      ensures Valid()
      ensures State() == old(State()).(
        groups := old(groups) + [NewLogic(k, NumberedLogicCount(old(groups)) + 1, None)],
        nextKey := old(nextKey) + 1)
    {
      var n;
      k, n := AddLogicStep(None);
    }

    // ---------------------------------------------------------- edges

    /** `drawArrow`: appends an edge drawn from the current positions of both ends. */
    method DrawArrow(from: Key, to: Key, color: Color)
      requires Valid() && HasKey(groups, from) && HasKey(groups, to)
      modifies this
      ensures Valid()
      ensures State() == old(State()).(
        connections := old(connections) + [RoutedByDims(old(groups), Connection(from, to, old(nextLine), Points(0.0, 0.0, 0.0, 0.0), color))],
        nextLine := old(nextLine) + 1)
      ensures Drawing() == WithArrow(old(Drawing()), from, to, color)
    {
      var c := RoutedByDims(groups, Connection(from, to, nextLine, Points(0.0, 0.0, 0.0, 0.0), color));
      ConsistentAddEdge(groups, connections, c, nextKey, nextLine, selectedGroup, selectedConnection);
      connections := connections + [c];
      nextLine := nextLine + 1;
    }

    /** `recomputeConnections`: every edge is redrawn from the current node positions. */
    method RecomputeConnections()
      requires Valid()
      modifies this
      ensures Valid()
      ensures State() == old(State()).(connections := Rerouted(old(groups), old(connections)))
    {
      ghost var c0 := connections;
      var i := 0;
      while i < |connections|
        invariant 0 <= i <= |connections| == |c0|
        invariant Linked(groups, c0)
        invariant forall j :: 0 <= j < i ==> connections[j] == RoutedByDims(groups, c0[j])
        invariant forall j :: i <= j < |c0| ==> connections[j] == c0[j]
        invariant State() == old(State()).(connections := connections)
      {
        connections := connections[i := RoutedByDims(groups, connections[i])];
        i := i + 1;
      }
      assert connections == Rerouted(groups, c0);
      ReroutedKeepsEdges(groups, c0);
      ConsistentSameEnds(groups, c0, connections, nextKey, nextLine, selectedGroup, selectedConnection);
    }

    /** A clicked edge becomes the selected one, or is deselected when it already was. */
    method ClickConnection(l: LineId)
      requires Valid() && HasLine(connections, l)
      modifies this
      ensures Valid()
      ensures State() == old(State()).(selectedConnection := if old(selectedConnection) == Some(l) then None else Some(l))
    {
      if selectedConnection == Some(l) {
        selectedConnection := None;
      } else {
        selectedConnection := Some(l);
      }
    }

    /**
     * `handleGroupClick`: clears the edge selection; the first click selects
     * a node, a second click on it deselects it, and a click on another node
     * joins the two with a black edge unless one already runs that way.
     */
    method HandleGroupClick(k: Key)
      requires Valid() && HasKey(groups, k)
      modifies this
      ensures Valid()
      ensures NoDuplicateEdges(old(connections)) ==> NoDuplicateEdges(connections)
      ensures old(selectedGroup).None? ==>
        State() == old(State()).(selectedConnection := None, selectedGroup := Some(k))
      ensures old(selectedGroup) == Some(k) ==>
        State() == old(State()).(selectedConnection := None, selectedGroup := None)
      ensures old(selectedGroup).Some? && old(selectedGroup) != Some(k) ==>
        var s := old(selectedGroup).value;
        var c := RoutedAsSteps(old(groups), Connection(s, k, old(nextLine), Points(0.0, 0.0, 0.0, 0.0), Black));
        && HasEdge(connections, s, k)
        && if HasEdge(old(connections), s, k)
           then State() == old(State()).(selectedConnection := None, selectedGroup := None)
           else State() == old(State()).(selectedConnection := None, selectedGroup := None,
                                         connections := old(connections) + [c], nextLine := old(nextLine) + 1)
    {
      selectedConnection := None;
      if selectedGroup.None? {
        selectedGroup := Some(k);
      } else if selectedGroup == Some(k) {
        selectedGroup := None;
      } else {
        var s := selectedGroup.value;
        ClickEdgeKeepsNoDuplicates(connections,
          RoutedAsSteps(groups, Connection(s, k, nextLine, Points(0.0, 0.0, 0.0, 0.0), Black)));
        JoinNodes(s, k);
        selectedGroup := None;
      }
    }

    /**
     * The joining half of `handleGroupClick`: a black edge from `s` to `k`,
     * drawn as between two steps, unless an edge already runs that way.
     */
    method JoinNodes(s: Key, k: Key)
      requires Valid() && HasKey(groups, s) && HasKey(groups, k)
      modifies this
      ensures Valid()
      ensures var c := RoutedAsSteps(old(groups), Connection(s, k, old(nextLine), Points(0.0, 0.0, 0.0, 0.0), Black));
        State() == old(State()).(connections := Joined(old(connections), c),
                                 nextLine := if HasEdge(old(connections), s, k) then old(nextLine) else old(nextLine) + 1)
    {
      var c := RoutedAsSteps(groups, Connection(s, k, nextLine, Points(0.0, 0.0, 0.0, 0.0), Black));
      if !HasEdge(connections, s, k) {
        ghost var s0 := State();
        ConsistentAddEdge(groups, connections, c, nextKey, nextLine, selectedGroup, selectedConnection);
        connections := connections + [c];
        nextLine := nextLine + 1;
        assert State() == s0.(connections := s0.connections + [c], nextLine := s0.nextLine + 1);
      }
    }

    // ---------------------------------------------------------- dragging

    /**
     * The `dragmove` handlers: the node snaps to the grid; a step redraws its
     * own edges as between two steps, a logic diamond redraws every edge.
     */
    method DragNode(k: Key, px: real, py: real)
      requires Valid() && HasKey(groups, k)
      modifies this
      ensures Valid()
      ensures groups == MovedTo(old(groups), k, Snap(px), Snap(py))
      ensures At(groups, k) == At(old(groups), k).(x := Snap(px), y := Snap(py))
      ensures Linked(groups, old(connections))
      ensures connections == if At(old(groups), k).kind == Step
                             then ReroutedAround(groups, old(connections), k)
                             else Rerouted(groups, old(connections))
      ensures State() == old(State()).(groups := groups, connections := connections)
    {
      var moved := MovedTo(groups, k, Snap(px), Snap(py));
      ConsistentSameKeys(groups, moved, connections, nextKey, nextLine, selectedGroup, selectedConnection);
      SameKeysAgree(groups, moved);
      var kind := At(groups, k).kind;
      groups := moved;
      if kind == Step {
        RedrawAround(k);
      } else {
        RecomputeConnections();
      }
    }

    /** The edge loop of the step drag handler: only edges touching `k` are redrawn. */
    method RedrawAround(k: Key)
      requires Valid()
      modifies this
      ensures Valid()
      ensures State() == old(State()).(connections := ReroutedAround(old(groups), old(connections), k))
    {
      ghost var c0 := connections;
      var i := 0;
      while i < |connections|
        invariant 0 <= i <= |connections| == |c0|
        invariant Consistent(groups, c0, nextKey, nextLine, selectedGroup, selectedConnection)
        invariant forall j :: 0 <= j < i ==>
          connections[j] == if Incident(c0[j], k) then RoutedAsSteps(groups, c0[j]) else c0[j]
        invariant forall j :: i <= j < |c0| ==> connections[j] == c0[j]
        invariant State() == old(State()).(connections := connections)
      {
        if Incident(connections[i], k) {
          connections := connections[i := RoutedAsSteps(groups, connections[i])];
        }
        i := i + 1;
      }
      assert connections == ReroutedAround(groups, c0, k);
      assert SameEnds(c0, connections);
      ConsistentSameEnds(groups, c0, connections, nextKey, nextLine, selectedGroup, selectedConnection);
    }

    // ---------------------------------------------------------- deleting

    /** `renumberSteps`: every node is renamed and relabelled after its position. */
    method RenumberSteps()
      requires Valid()
      modifies this
      ensures Valid()
      ensures State() == old(State()).(groups := Renumbered(old(groups), templates))
    {
      ghost var g0 := groups;
      var i := 0;
      while i < |groups|
        invariant 0 <= i <= |groups| == |g0|
        invariant forall j :: 0 <= j < i ==> groups[j] == Renumbered(g0, templates)[j]
        invariant forall j :: i <= j < |g0| ==> groups[j] == g0[j]
        invariant State() == old(State()).(groups := groups)
      {
        var g := groups[i];
        groups := groups[i := g.(name := StepName(i + 1, TemplateText(g.templateId)),
                                 text := StepLabel(i + 1, TemplateName(templates, g.templateId)))];
        i := i + 1;
      }
      assert groups == Renumbered(g0, templates);
      ConsistentSameKeys(g0, groups, connections, nextKey, nextLine, selectedGroup, selectedConnection);
    }

    /**
     * `handleDeleteConnection`: deletes the selected edge; failing that, the
     * selected node with its edges, after which every node is renumbered;
     * with nothing selected nothing changes.
     */
    method HandleDeleteConnection()
      requires Valid()
      modifies this
      ensures Valid()
      ensures old(selectedConnection).Some? ==>
        && State() == old(State()).(connections := WithoutLine(old(connections), old(selectedConnection).value),
                                    selectedConnection := None)
        && |connections| == |old(connections)| - 1
      ensures old(selectedConnection).None? && old(selectedGroup).Some? ==>
        && State() == old(State()).(groups := Renumbered(WithoutKey(old(groups), old(selectedGroup).value), templates),
                                    connections := WithoutIncident(old(connections), old(selectedGroup).value),
                                    selectedGroup := None)
        && |groups| == |old(groups)| - 1
      ensures old(selectedConnection).None? && old(selectedGroup).None? ==> State() == old(State())
    {
      ghost var s0 := State();
      if selectedConnection.Some? {
        var l := selectedConnection.value;
        ConsistentDeleteLine(groups, connections, l, nextKey, nextLine, selectedGroup);
        connections := WithoutLine(connections, l);
        selectedConnection := None;
        assert State() == s0.(connections := WithoutLine(s0.connections, l), selectedConnection := None);
      } else if selectedGroup.Some? {
        var k := selectedGroup.value;
        ConsistentDeleteNode(groups, connections, k, nextKey, nextLine);
        connections := WithoutIncident(connections, k);
        groups := WithoutKey(groups, k);
        selectedGroup := None;
        ghost var s1 := State();
        assert s1 == s0.(groups := WithoutKey(s0.groups, k), connections := WithoutIncident(s0.connections, k),
                         selectedGroup := None);
        RenumberSteps();
        assert State() == s1.(groups := Renumbered(s1.groups, templates));
      }
    }

    // ---------------------------------------------------------- logic modal

    /** `handleLogicEdit`: opens the modal for diamond `k` with the step numbers feeding it. */
    method HandleLogicEdit(k: Key)
      requires Valid() && HasKey(groups, k)
      modifies this
      ensures Valid()
      ensures State() == old(State()).(logicEditGroup := Some(k),
                                       allowedStepIds := IncomingStepNumbers(old(groups), old(connections), k),
                                       logicConditionInput := At(old(groups), k).logicCondition)
    {
      var allowed := IncomingStepNumbers(groups, connections, k);
      var condition := At(groups, k).logicCondition;
      ghost var s0 := State();
      logicEditGroup := Some(k);
      allowedStepIds := allowed;
      logicConditionInput := condition;
      assert State() == s0.(logicEditGroup := Some(k), allowedStepIds := allowed, logicConditionInput := condition);
    }

    method HandleLogicConditionChange(value: string)
      modifies this
      ensures State() == old(State()).(logicConditionInput := value)
    {
      logicConditionInput := value;
    }

    method HandleLogicModalCancel()
      modifies this
      ensures State() == old(State()).(logicEditGroup := None, logicConditionInput := "")
    {
      logicEditGroup := None;
      logicConditionInput := "";
    }

    /**
     * `handleLogicModalSave`: the trimmed condition is refused when a whole
     * number in it is not an allowed step number; otherwise the diamond takes
     * it and the modal closes. With no diamond open an accepted save throws
     * before changing anything.
     */
    method HandleLogicModalSave() returns (invalid: seq<string>)
      requires Valid()
      modifies this
      ensures Valid()
      ensures invalid == InvalidReferences(DigitWords(Trim(old(logicConditionInput))), old(allowedStepIds))
      ensures invalid != [] || old(logicEditGroup).None? ==> State() == old(State())
      ensures invalid == [] && old(logicEditGroup).Some? ==>
        State() == old(State()).(groups := WithCondition(old(groups), old(logicEditGroup).value, Trim(old(logicConditionInput))),
                                 logicEditGroup := None, logicConditionInput := "")
    {
      var input := Trim(logicConditionInput);
      invalid := InvalidReferences(DigitWords(input), allowedStepIds);
      if invalid == [] && logicEditGroup.Some? {
        AcceptCondition(logicEditGroup.value, input);
      }
    }

    /** The accepted branch of `handleLogicModalSave`: diamond `k` takes `condition` and the modal closes. */
    method AcceptCondition(k: Key, condition: string)
      requires Valid()
      modifies this
      ensures Valid()
      ensures State() == old(State()).(groups := WithCondition(old(groups), k, condition),
                                       logicEditGroup := None, logicConditionInput := "")
      ensures HasKey(old(groups), k) ==>
        At(groups, k) == At(old(groups), k).(logicCondition := condition, text := "Logic\n" + condition)
      ensures forall j :: j != k && HasKey(old(groups), j) ==> At(groups, j) == At(old(groups), j)
    {
      var g1 := WithCondition(groups, k, condition);
      ghost var s0 := State();
      ConsistentSameKeys(groups, g1, connections, nextKey, nextLine, selectedGroup, selectedConnection);
      groups := g1;
      logicEditGroup := None;
      logicConditionInput := "";
      assert State() == s0.(groups := g1, logicEditGroup := None, logicConditionInput := "");
    }

    // ---------------------------------------------------------- saving

    /**
     * `saveProcess`: validates and builds the payload; `response` is the
     * record id the backend answers with, `None` when the call fails.
     */
    method SaveProcess(response: Option<string>) returns (r: Result<Payload, SaveError>)
      requires Valid()
      modifies this
      ensures Valid()
      ensures r == BuildPayload(old(processName), old(stepsToComplete), old(savedTemplateId), old(groups), old(connections))
      ensures State() == if r.Success? && response.Some? then old(State()).(savedTemplateId := response) else old(State())
    {
      r := BuildPayload(processName, stepsToComplete, savedTemplateId, groups, connections);
      if r.Success? && response.Some? {
        savedTemplateId := response;
      }
    }

    // ---------------------------------------------------------- layout

    /** `computeDiagramBounds`: the running minima and maxima over the nodes. */
    method ComputeDiagramBounds() returns (b: Bounds)
      ensures b == DiagramBounds(groups)
    {
      if |groups| == 0 {
        return Bounds(0.0, 0.0, 0.0, 0.0);
      }
      var minX, minY, maxX, maxY := groups[0].x, groups[0].y,
        groups[0].x + NodeDims(groups[0].kind).w, groups[0].y + NodeDims(groups[0].kind).h;
      var i := 1;
      while i < |groups|
        invariant 1 <= i <= |groups|
        invariant minX == SeqMin(Lefts(groups)[..i]) && minY == SeqMin(Tops(groups)[..i])
        invariant maxX == SeqMax(Rights(groups)[..i]) && maxY == SeqMax(Bottoms(groups)[..i])
      {
        var g := groups[i];
        var d := NodeDims(g.kind);
        BoundsPrefixStep(groups, i);
        minX := Min(minX, g.x);
        minY := Min(minY, g.y);
        maxX := Max(maxX, g.x + d.w);
        maxY := Max(maxY, g.y + d.h);
        i := i + 1;
      }
      assert Lefts(groups)[..i] == Lefts(groups) && Tops(groups)[..i] == Tops(groups);
      assert Rights(groups)[..i] == Rights(groups) && Bottoms(groups)[..i] == Bottoms(groups);
      b := Bounds(minX, minY, maxX - minX, maxY - minY);
    }

    /**
     * `centerDiagramOnStage`: moves every node by one offset so the diagram
     * is centred with at least `padding` to spare, then redraws every edge.
     */
    method CenterDiagramOnStage(stageW: real, stageH: real, padding: real)
      requires Valid()
      modifies this
      ensures Valid()
      ensures groups == Centered(old(groups), stageW, stageH, padding)
      ensures Linked(groups, old(connections))
      ensures connections == if old(groups) == [] then old(connections) else Rerouted(groups, old(connections))
      ensures State() == old(State()).(groups := groups, connections := connections)
    {
      var bounds := ComputeDiagramBounds();
      if bounds.width == 0.0 && bounds.height == 0.0 {
        return;
      }
      var offsetX := CenterTarget(bounds.width, stageW, padding) - bounds.minX;
      var offsetY := CenterTarget(bounds.height, stageH, padding) - bounds.minY;
      ghost var g0 := groups;
      TranslateAll(offsetX, offsetY);
      assert groups == Centered(g0, stageW, stageH, padding);
      RecomputeConnections();
    }

    /** The `forEach` of `centerDiagramOnStage` that moves every node by `(dx, dy)`. */
    method TranslateAll(dx: real, dy: real)
      requires Valid()
      modifies this
      ensures Valid()
      ensures State() == old(State()).(groups := Translated(old(groups), dx, dy))
    {
      ghost var g0 := groups;
      var i := 0;
      while i < |groups|
        invariant 0 <= i <= |groups| == |g0|
        invariant forall j :: 0 <= j < i ==> groups[j] == g0[j].(x := g0[j].x + dx, y := g0[j].y + dy)
        invariant forall j :: i <= j < |g0| ==> groups[j] == g0[j]
        invariant State() == old(State()).(groups := groups)
      {
        groups := groups[i := groups[i].(x := groups[i].x + dx, y := groups[i].y + dy)];
        i := i + 1;
      }
      assert groups == Translated(g0, dx, dy);
      ConsistentSameKeys(g0, groups, connections, nextKey, nextLine, selectedGroup, selectedConnection);
    }

    // ---------------------------------------------------------- loading

    /**
     * The reflow after a diamond is inserted at load time: every node at or
     * below the target moves down 200, comparing with the target's y as it
     * stands when the node is reached.
     */
    method ShiftForLoad(to: Key)
      requires Valid() && HasKey(groups, to)
      modifies this
      ensures Valid()
      ensures State() == old(State()).(groups := ShiftedAllForLoad(old(groups), FindIndex(old(groups), to)))
      ensures Drawing() == Reflowed(old(Drawing()), to)
      ensures GrowsVertically(old(groups), groups) && KeepsKeys(old(groups), groups)
    {
      var t := FindIndex(groups, to);
      ghost var g0 := groups;
      var i := 0;
      while i < |groups|
        invariant 0 <= i <= |groups| == |g0|
        invariant forall j :: 0 <= j < i ==> groups[j] == ShiftedForLoad(g0, t, j)
        invariant forall j :: i <= j < |g0| ==> groups[j] == g0[j]
        invariant State() == old(State()).(groups := groups)
      {
        if groups[i].y >= groups[t].y {
          groups := groups[i := groups[i].(y := groups[i].y + ShiftY)];
        }
        i := i + 1;
      }
      assert groups == ShiftedAllForLoad(g0, t);
      ReflowMovesTargetDown(g0, t);
      ConsistentSameKeys(g0, groups, connections, nextKey, nextLine, selectedGroup, selectedConnection);
      ShiftGrows(g0, t);
    }

    /**
     * One step of the first `forEach` of `loadTemplateData`: the loaded step
     * becomes a node and `stepMap` sends its id to it.
     */
    method LoadStep(step: StepData, stepMap: map<string, Key>) returns (stepMap': map<string, Key>)
      requires Valid()
      modifies this
      ensures Valid()
      ensures Drawing() == WithStep(old(Drawing()), step)
      ensures groups == old(groups) + [LoadedStep(old(nextKey), NextStepNumber(old(groups)), step)]
      ensures nextKey == old(nextKey) + 1
      ensures stepMap' == stepMap[step.id := old(nextKey)]
      ensures State() == old(State()).(groups := groups, nextKey := nextKey)
    {
      var k, _ := AddStep(Some(step));
      stepMap' := stepMap[step.id := k];
    }

    /**
     * The first `forEach` of `loadTemplateData`: every loaded step is added
     * in order, and `stepMap` sends each id to the node of the last step
     * with that id.
     */
    method LoadSteps(steps: seq<StepData>) returns (stepMap: map<string, Key>)
      requires Valid()
      modifies this
      ensures Valid()
      ensures Drawing() == LoadedSteps(old(Drawing()), steps)
      ensures stepMap == StepMapOf(old(nextKey), steps)
      ensures State() == old(State()).(groups := groups, nextKey := nextKey)
    {
      stepMap := map[];
      ghost var c0 := Drawing();
      var i := 0;
      assert steps[..0] == [];
      while i < |steps|
        invariant 0 <= i <= |steps|
        invariant Valid()
        invariant StepsLoadedUpTo(c0, steps, i, Drawing())
        invariant StepMapUpTo(c0.nextKey, steps, i, stepMap)
        invariant State() == old(State()).(groups := groups, nextKey := nextKey)
      {
        StepsLoadedNext(c0, steps, i, Drawing());
        StepMapNext(c0.nextKey, steps, i, stepMap, nextKey);
        stepMap := LoadStep(steps[i], stepMap);
        i := i + 1;
      }
      assert steps[..i] == steps;
    }

    /**
     * A diamond inserted at load time for a gated target: the logic node
     * `spec` describes is appended, then the reflow and the green edge from
     * the diamond to the target.
     */
    method InsertDiamond(spec: LogicSpec, to: Key) returns (logicKey: Key, n: nat)
      requires Valid() && HasKey(groups, to)
      modifies this
      ensures Valid()
      ensures logicKey == old(nextKey) && n == NumberedLogicCount(old(groups)) + 1
      ensures groups == DiamondInserted(old(groups), NewLogic(logicKey, n, Some(spec)), to)
      ensures connections == old(connections) + [RoutedByDims(groups, NewEdge(logicKey, to, old(nextLine), Green))]
      ensures Drawing() == WithArrow(Reflowed(WithLogic(old(Drawing()), LogicNode(old(Drawing()), Some(spec))), to), logicKey, to, Green)
      ensures State() == old(State()).(groups := groups, connections := connections,
                                       nextKey := old(nextKey) + 1, nextLine := old(nextLine) + 1)
    {
      logicKey, n := AddLogicStep(Some(spec));
      ReflowAndJoin(logicKey, to);
    }

    /** The reflow around the target of a new diamond, then the green edge from the diamond into it. */
    method ReflowAndJoin(k: Key, to: Key)
      requires Valid() && HasKey(groups, k) && HasKey(groups, to)
      modifies this
      ensures Valid()
      ensures groups == ShiftedAllForLoad(old(groups), FindIndex(old(groups), to))
      ensures HasKey(groups, k) && HasKey(groups, to)
      ensures connections == old(connections) + [RoutedByDims(groups, NewEdge(k, to, old(nextLine), Green))]
      ensures Drawing() == WithArrow(Reflowed(old(Drawing()), to), k, to, Green)
      ensures State() == old(State()).(groups := groups, connections := connections, nextLine := old(nextLine) + 1)
    {
      ShiftForLoad(to);
      DrawArrow(k, to, Green);
    }

    /**
     * The diamond cached for a gated target: the first connection into the
     * target creates it under the source node, later ones find it in
     * `logicNodes`.
     */
    method DiamondFor(from: Key, to: Key, target: string, condition: string,
                      logicNodes: map<string, Key>) returns (logicNodes': map<string, Key>)
      requires Valid() && HasKey(groups, from) && HasKey(groups, to) && MapsInto(logicNodes, groups)
      modifies this
      ensures Valid()
      ensures Progress(Drawing(), logicNodes')
        == DiamondCached(Progress(old(Drawing()), logicNodes), from, to, target, condition)
      ensures State() == old(State()).(groups := groups, connections := connections,
                                       nextKey := nextKey, nextLine := nextLine)
    {
      if target !in logicNodes {
        var logicKey, _ := InsertDiamond(DiamondSpec(At(groups, from), "logic-for-" + target, condition), to);
        logicNodes' := logicNodes[target := logicKey];
      } else {
        logicNodes' := logicNodes;
      }
    }

    /**
     * A loaded connection into a gated target: through the target's diamond,
     * with a green edge from the source into the diamond.
     */
    method JoinThroughDiamond(from: Key, to: Key, target: string, condition: string,
                              logicNodes: map<string, Key>) returns (logicNodes': map<string, Key>)
      requires Valid() && HasKey(groups, from) && HasKey(groups, to) && MapsInto(logicNodes, groups)
      modifies this
      ensures Valid()
      ensures Progress(Drawing(), logicNodes')
        == ThroughDiamond(Progress(old(Drawing()), logicNodes), from, to, target, condition)
      ensures State() == old(State()).(groups := groups, connections := connections,
                                       nextKey := nextKey, nextLine := nextLine)
    {
      logicNodes' := DiamondFor(from, to, target, condition, logicNodes);
      DrawArrow(from, logicNodes'[target], Green);
    }

    /**
     * The body of the connection loop of `loadTemplateData`. A connection
     * whose ends are not both loaded is skipped. One into a step gated by
     * custom logic goes through that step's diamond, which the first such
     * connection creates; any other connection is a black edge.
     */
    method LoadConnection(data: TemplateData, conn: ConnectionData, stepMap: map<string, Key>,
                          logicNodes: map<string, Key>) returns (logicNodes': map<string, Key>)
      requires Valid() && MapsInto(stepMap, groups) && MapsInto(logicNodes, groups)
      modifies this
      ensures Valid()
      ensures Progress(Drawing(), logicNodes')
        == ConnectionLoaded(data, stepMap, Progress(old(Drawing()), logicNodes), conn)
      ensures State() == old(State()).(groups := groups, connections := connections,
                                       nextKey := nextKey, nextLine := nextLine)
    {
      if !(conn.fromStep in stepMap && conn.toStep in stepMap) {
        logicNodes' := logicNodes;
        return;
      }
      var toStepData := FindStep(data.steps, conn.toStep);
      if toStepData.Some? && Gated(toStepData.value) {
        logicNodes' := JoinThroughDiamond(stepMap[conn.fromStep], stepMap[conn.toStep], conn.toStep,
                                          toStepData.value.customLogic, logicNodes);
      } else {
        logicNodes' := logicNodes;
        DrawArrow(stepMap[conn.fromStep], stepMap[conn.toStep], Black);
      }
    }

    /**
     * The connection loop of `loadTemplateData`, over the loaded connections
     * in order; `logicNodes` sends each gated target to its diamond.
     */
    method LoadConnections(data: TemplateData, stepMap: map<string, Key>) returns (logicNodes: map<string, Key>)
      requires Valid() && MapsInto(stepMap, groups)
      modifies this
      ensures Valid()
      ensures Progress(Drawing(), logicNodes)
        == ConnectionsLoaded(data, stepMap, Progress(old(Drawing()), map[]), |data.connections|)
      ensures State() == old(State()).(groups := groups, connections := connections,
                                       nextKey := nextKey, nextLine := nextLine)
    {
      logicNodes := map[];
      ghost var p0 := Progress(Drawing(), map[]);
      var j := 0;
      while j < |data.connections|
        invariant 0 <= j <= |data.connections|
        invariant Valid()
        invariant Progress(Drawing(), logicNodes) == ConnectionsLoaded(data, stepMap, p0, j)
        invariant State() == old(State()).(groups := groups, connections := connections,
                                           nextKey := nextKey, nextLine := nextLine)
      {
        logicNodes := LoadConnection(data, data.connections[j], stepMap, logicNodes);
        j := j + 1;
      }
    }

    /**
     * The drawing part of `loadTemplateData`: the steps are added, then the
     * connections, and the diagram is centred with the default padding of 24.
     */
    method DrawTemplate(data: TemplateData, stageW: real, stageH: real)
      requires Valid()
      modifies this
      ensures Valid()
      ensures Drawing() == LoadedAndCentered(data, old(Drawing()), stageW, stageH)
      ensures State() == old(State()).(groups := groups, connections := connections,
                                       nextKey := nextKey, nextLine := nextLine)
    {
      ghost var c0 := Drawing();
      var stepMap := LoadSteps(data.steps);
      StepMapLoaded(c0, data.steps);
      var _ := LoadConnections(data, stepMap);
      CenterDiagramOnStage(stageW, stageH, DefaultPadding);
    }

    /**
     * `loadTemplateData`: `response` is the saved process the backend
     * returns, `None` when the call fails. The form fields are set from it,
     * then the process is drawn.
     */
    method LoadTemplateData(response: Option<TemplateData>, stageW: real, stageH: real)
      requires Valid()
      modifies this
      ensures Valid()
      ensures response.None? ==> State() == old(State())
      ensures response.Some? ==>
        && Drawing() == LoadedAndCentered(response.value, old(Drawing()), stageW, stageH)
        && State() == old(State()).(groups := groups, connections := connections,
                                    processName := response.value.processName,
                                    stepsToComplete := response.value.stepsToComplete,
                                    savedTemplateId := response.value.templateId,
                                    nextKey := nextKey, nextLine := nextLine)
    {
      if response.None? {
        return;
      }
      var data := response.value;
      ghost var c0 := Drawing();
      processName := data.processName;
      stepsToComplete := data.stepsToComplete;
      savedTemplateId := data.templateId;
      assert Drawing() == c0;
      ghost var s1 := State();
      assert s1 == old(State()).(processName := data.processName, stepsToComplete := data.stepsToComplete,
                                 savedTemplateId := data.templateId);
      DrawTemplate(data, stageW, stageH);
    }
  }
}
