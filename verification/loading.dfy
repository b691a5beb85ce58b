/**
 * What `loadTemplateData` builds, stated on values: the steps added one by
 * one, then the connections one by one (each a black edge, or green edges
 * through the diamond of a target gated by custom logic), then the diagram
 * centred on the stage. The loader methods of the configurator are proved
 * to produce exactly these values.
 */
module Loading {
  import opened JsText
  import opened Wrappers
  import opened Graph
  import opened Layout
  import opened Editing

  /** The part of the editor the loader changes: nodes, edges and both counters. */
  datatype Canvas = Canvas(groups: seq<Group>, connections: seq<Connection>, nextKey: nat, nextLine: nat)

  /** Every edge joins two nodes, and every key is below the key counter. */
  predicate Ready(c: Canvas)
  {
    Linked(c.groups, c.connections) && forall i :: 0 <= i < |c.groups| ==> c.groups[i].key < c.nextKey
  }

  /** A node with a key at or past the counter is not on the canvas. */
  lemma FreshKey(c: Canvas, k: Key)
    requires Ready(c) && k >= c.nextKey
    ensures !HasKey(c.groups, k)
  {
    HasKeyIff(c.groups, k);
  }

  /** Growing the node list without losing a key keeps every edge attached. */
  lemma LinkedGrows(g0: seq<Group>, g1: seq<Group>, cs: seq<Connection>)
    requires Linked(g0, cs) && KeepsKeys(g0, g1)
    ensures Linked(g1, cs)
  {
  }

  // ---------------------------------------------------------------- steps

  /** `addStep` for one loaded step: its node under the next key, numbered with the next free step number. */
  function WithStep(c: Canvas, s: StepData): (r: Canvas)
    requires Ready(c)
    ensures Ready(r) && r.connections == c.connections && r.nextLine == c.nextLine
    ensures r.nextKey == c.nextKey + 1
    ensures |r.groups| == |c.groups| + 1 && r.groups[..|c.groups|] == c.groups && r.groups[|c.groups|].key == c.nextKey
  {
    var g := LoadedStep(c.nextKey, NextStepNumber(c.groups), s);
    FreshKey(c, g.key);
    AppendKeepsLookups(c.groups, g, c.connections);
    c.(groups := c.groups + [g], nextKey := c.nextKey + 1)
  }

  /** The step loop of `loadTemplateData`: every loaded step added in order. */
  function LoadedSteps(c: Canvas, steps: seq<StepData>): (r: Canvas)
    requires Ready(c)
    ensures Ready(r) && r.connections == c.connections && r.nextLine == c.nextLine
    ensures |r.groups| == |c.groups| + |steps| && r.groups[..|c.groups|] == c.groups
    ensures r.nextKey == c.nextKey + |steps|
    ensures forall i :: |c.groups| <= i < |r.groups| ==> r.groups[i].key == c.nextKey + (i - |c.groups|)
    decreases |steps|
  {
    if steps == [] then c
    else
      var p := LoadedSteps(c, steps[..|steps| - 1]);
      StepExtends(c, p, steps[|steps| - 1]);
      WithStep(p, steps[|steps| - 1])
  }

  /** One more loaded step keeps the nodes already there and takes the next key. */
  lemma StepExtends(c: Canvas, p: Canvas, s: StepData)
    requires Ready(c) && Ready(p) && |c.groups| <= |p.groups| && p.groups[..|c.groups|] == c.groups
    requires p.nextKey == c.nextKey + (|p.groups| - |c.groups|)
    requires forall i :: |c.groups| <= i < |p.groups| ==> p.groups[i].key == c.nextKey + (i - |c.groups|)
    ensures var r := WithStep(p, s);
      r.groups[..|c.groups|] == c.groups &&
      forall i :: |c.groups| <= i < |r.groups| ==> r.groups[i].key == c.nextKey + (i - |c.groups|)
  {
    var r := WithStep(p, s);
    PrefixTrans(c.groups, p.groups, r.groups);
    forall i | |c.groups| <= i < |r.groups| ensures r.groups[i].key == c.nextKey + (i - |c.groups|) {
      if i < |p.groups| {
        assert r.groups[i] == r.groups[..|p.groups|][i];
      }
    }
  }

  /**
   * The loaded step j becomes node `|c.groups| + j`, under key `nextKey + j`,
   * numbered with the step number that was free when it was added.
   */
  lemma {:induction false} LoadedStepsPlaces(c: Canvas, steps: seq<StepData>)
    requires Ready(c)
    ensures var r := LoadedSteps(c, steps);
      forall j :: 0 <= j < |steps| ==>
        r.groups[|c.groups| + j]
          == LoadedStep(c.nextKey + j, NextStepNumber(r.groups[..|c.groups| + j]), steps[j])
  {
    if steps != [] {
      var n := |steps| - 1;
      var p := LoadedSteps(c, steps[..n]);
      var r := LoadedSteps(c, steps);
      LoadedStepsPlaces(c, steps[..n]);
      var g := LoadedStep(p.nextKey, NextStepNumber(p.groups), steps[n]);
      assert r.groups == p.groups + [g];
      forall j | 0 <= j < |steps|
        ensures r.groups[|c.groups| + j]
          == LoadedStep(c.nextKey + j, NextStepNumber(r.groups[..|c.groups| + j]), steps[j])
      {
        AppendAt(p.groups, g, |c.groups| + j);
        if j < n {
          assert steps[..n][j] == steps[j];
        }
      }
    }
  }

  /** Appending a node keeps every earlier node and every prefix up to the old length. */
  lemma AppendAt(a: seq<Group>, g: Group, k: nat)
    requires k <= |a|
    ensures (a + [g])[..k] == a[..k]
    ensures (a + [g])[k] == if k < |a| then a[k] else g
  {
  }

  /** `stepMap` after the step loop: each id goes to the key of the last step with that id. */
  function StepMapOf(k0: nat, steps: seq<StepData>): (m: map<string, Key>)
    ensures m.Keys == IdsOf(steps)
    ensures forall id :: id in m ==> k0 <= m[id] < k0 + |steps|
  {
    if steps == [] then map[]
    else StepMapOf(k0, steps[..|steps| - 1])[steps[|steps| - 1].id := k0 + |steps| - 1]
  }

  /** The drawing once the first `i` loaded steps are added. */
  ghost predicate StepsLoadedUpTo(c: Canvas, steps: seq<StepData>, i: nat, d: Canvas)
    requires Ready(c) && i <= |steps|
  {
    d == LoadedSteps(c, steps[..i])
  }

  /** `stepMap` once the first `i` loaded steps are added. */
  ghost predicate StepMapUpTo(k0: nat, steps: seq<StepData>, i: nat, m: map<string, Key>)
    requires i <= |steps|
  {
    m == StepMapOf(k0, steps[..i])
  }

  /** Adding loaded step `i` takes the drawing one step further. */
  lemma StepsLoadedNext(c: Canvas, steps: seq<StepData>, i: nat, d: Canvas)
    requires Ready(c) && i < |steps| && StepsLoadedUpTo(c, steps, i, d)
    ensures Ready(d) && d.nextKey == c.nextKey + i
    ensures StepsLoadedUpTo(c, steps, i + 1, WithStep(d, steps[i]))
  {
    assert steps[..i + 1][..i] == steps[..i];
  }

  /** Adding loaded step `i` sends its id to the next key. */
  lemma StepMapNext(k0: nat, steps: seq<StepData>, i: nat, m: map<string, Key>, k: Key)
    requires i < |steps| && StepMapUpTo(k0, steps, i, m) && k == k0 + i
    ensures StepMapUpTo(k0, steps, i + 1, m[steps[i].id := k])
  {
    assert steps[..i + 1][..i] == steps[..i];
  }

  /** Every id of `stepMap` names one of the loaded nodes. */
  lemma StepMapLoaded(c: Canvas, steps: seq<StepData>)
    requires Ready(c)
    ensures MapsInto(StepMapOf(c.nextKey, steps), LoadedSteps(c, steps).groups)
  {
    var m := StepMapOf(c.nextKey, steps);
    var r := LoadedSteps(c, steps);
    forall id | id in m ensures HasKey(r.groups, m[id]) {
      var j := m[id] - c.nextKey;
      assert r.groups[|c.groups| + j].key == m[id];
      HasKeyIff(r.groups, m[id]);
    }
  }

  // ---------------------------------------------------------------- connections

  /** `drawArrow` on a canvas: one edge from `from` to `to`, drawn from the current positions, under the next line. */
  function WithArrow(c: Canvas, from: Key, to: Key, color: Color): (r: Canvas)
    requires Ready(c) && HasKey(c.groups, from) && HasKey(c.groups, to)
    ensures Ready(r) && r.groups == c.groups && r.nextKey == c.nextKey && r.nextLine == c.nextLine + 1
    ensures r.connections == c.connections + [RoutedByDims(c.groups, NewEdge(from, to, c.nextLine, color))]
  {
    c.(connections := c.connections + [RoutedByDims(c.groups, NewEdge(from, to, c.nextLine, color))],
       nextLine := c.nextLine + 1)
  }

  /** `drawArrow` keeps every edge and adds one with the given ends, line and colour. */
  lemma ArrowAppends(c: Canvas, from: Key, to: Key, color: Color)
    requires Ready(c) && HasKey(c.groups, from) && HasKey(c.groups, to)
    ensures var r := WithArrow(c, from, to, color);
      && |r.connections| == |c.connections| + 1 && r.connections[..|c.connections|] == c.connections
      && EdgeIs(r.connections[|c.connections|], from, to, c.nextLine, color)
  {
  }

  /** A prefix of a prefix is a prefix. */
  lemma PrefixTrans<T>(a: seq<T>, b: seq<T>, c: seq<T>)
    requires |a| <= |b| <= |c| && c[..|b|] == b && b[..|a|] == a
    ensures c[..|a|] == a
  {
    assert c[..|a|] == c[..|b|][..|a|];
  }

  /** `addLogicStep` on a canvas: the logic node `g` appended under the next key. */
  function WithLogic(c: Canvas, g: Group): (r: Canvas)
    requires Ready(c) && g.kind == Logic && g.key == c.nextKey
    ensures Ready(r) && GrowsVertically(c.groups, r.groups) && KeepsKeys(c.groups, r.groups)
    ensures |r.groups| == |c.groups| + 1 && HasKey(r.groups, g.key)
    ensures r.connections == c.connections && r.nextKey == c.nextKey + 1 && r.nextLine == c.nextLine
  {
    AppendLogicGrows(c.groups, g);
    LinkedGrows(c.groups, c.groups + [g], c.connections);
    c.(groups := c.groups + [g], nextKey := c.nextKey + 1)
  }

  /** The node `addLogicStep` appends: the next key, numbered after the logic nodes already there. */
  function LogicNode(c: Canvas, spec: Option<LogicSpec>): (d: Group)
    ensures d.key == c.nextKey && d.kind == Logic
    ensures d.logicCondition == if spec.Some? then spec.value.condition else ""
    ensures d.name == if spec.Some? && spec.value.id != "" then spec.value.id
                      else "logic-" + NatToString(NextLogicNumber(c.groups))
    ensures d.text == if spec.Some? && spec.value.text != "" then spec.value.text
                      else if spec.Some? && spec.value.condition != "" then spec.value.condition
                      else "Logic " + NatToString(NextLogicNumber(c.groups))
    ensures d.x == if spec.Some? && spec.value.x != 0.0 then spec.value.x else 200.0
    ensures d.y == if spec.Some? && spec.value.y != 0.0 then spec.value.y else DefaultLogicY(NextLogicNumber(c.groups))
  {
    NewLogic(c.nextKey, NextLogicNumber(c.groups), spec)
  }

  /** The number `addLogicStep` gives the next diamond: one past the numbered logic nodes. */
  function NextLogicNumber(gs: seq<Group>): (n: nat)
    ensures n == NumberedLogicCount(gs) + 1
  {
    NumberedLogicCount(gs) + 1
  }

  /** `LogicNode` is the node `addLogicStep` builds from the canvas's key counter and numbered logic nodes. */
  lemma LogicNodeOf(c: Canvas, spec: Option<LogicSpec>)
    ensures LogicNode(c, spec) == NewLogic(c.nextKey, NextLogicNumber(c.groups), spec)
  {
  }

  /** The load reflow around the node `to`: nodes at or below it move down by `ShiftY`. */
  function Reflowed(c: Canvas, to: Key): (r: Canvas)
    requires Ready(c) && HasKey(c.groups, to)
    ensures Ready(r) && GrowsVertically(c.groups, r.groups) && KeepsKeys(c.groups, r.groups)
    ensures r.connections == c.connections && r.nextKey == c.nextKey && r.nextLine == c.nextLine
  {
    var gs := ShiftedAllForLoad(c.groups, FindIndex(c.groups, to));
    ShiftGrows(c.groups, FindIndex(c.groups, to));
    LinkedGrows(c.groups, gs, c.connections);
    assert forall i :: 0 <= i < |gs| ==> gs[i].key < c.nextKey by {
      forall i | 0 <= i < |gs| ensures gs[i].key < c.nextKey { assert gs[i] == c.groups[i].(y := gs[i].y); }
    }
    c.(groups := gs)
  }

  /** The state of the connection loop: the canvas, and `logicNodes`, the diamond of each gated target so far. */
  datatype Progress = Progress(canvas: Canvas, logicNodes: map<string, Key>)

  /** The canvas is ready, and `stepMap` and `logicNodes` both send ids to nodes on it. */
  predicate Tracks(p: Progress, stepMap: map<string, Key>)
  {
    Ready(p.canvas) && MapsInto(stepMap, p.canvas.groups) && MapsInto(p.logicNodes, p.canvas.groups)
  }

  /**
   * The diamond of gated target `target`: the cached one, or a new one
   * placed under the source node `from` and cached.
   */
  function DiamondCached(p: Progress, from: Key, to: Key, target: string, condition: string): (r: Progress)
    requires Ready(p.canvas) && HasKey(p.canvas.groups, from) && HasKey(p.canvas.groups, to)
    requires MapsInto(p.logicNodes, p.canvas.groups)
    ensures Ready(r.canvas) && MapsInto(r.logicNodes, r.canvas.groups) && target in r.logicNodes
    ensures GrowsVertically(p.canvas.groups, r.canvas.groups) && KeepsKeys(p.canvas.groups, r.canvas.groups)
    ensures r.logicNodes.Keys == p.logicNodes.Keys + {target}
  {
    if target in p.logicNodes then
      assert GrowsVertically(p.canvas.groups, p.canvas.groups);
      p
    else
      NewDiamond(p, from, to, target, condition)
  }

  /**
   * A new diamond for `target`: the logic node under `from` appended with the
   * next key, the reflow around `to`, the green edge into `to`, and the
   * diamond cached for `target`.
   */
  function NewDiamond(p: Progress, from: Key, to: Key, target: string, condition: string): (r: Progress)
    requires Ready(p.canvas) && HasKey(p.canvas.groups, from) && HasKey(p.canvas.groups, to)
    requires MapsInto(p.logicNodes, p.canvas.groups)
    ensures Ready(r.canvas) && MapsInto(r.logicNodes, r.canvas.groups)
    ensures GrowsVertically(p.canvas.groups, r.canvas.groups) && KeepsKeys(p.canvas.groups, r.canvas.groups)
    ensures r.logicNodes == p.logicNodes[target := p.canvas.nextKey]
  {
    var c := p.canvas;
    var d := LogicNode(c, Some(DiamondSpec(At(c.groups, from), "logic-for-" + target, condition)));
    var moved := Reflowed(WithLogic(c, d), to);
    DiamondKeepsNodes(c, d, to, p.logicNodes);
    Progress(WithArrow(moved, c.nextKey, to, Green), p.logicNodes[target := c.nextKey])
  }

  /** After a diamond is added and the nodes reflowed, every earlier node and id is still found, and so is the diamond. */
  lemma DiamondKeepsNodes(c: Canvas, d: Group, to: Key, m: map<string, Key>)
    requires Ready(c) && HasKey(c.groups, to) && d.kind == Logic && d.key == c.nextKey
    requires MapsInto(m, c.groups)
    ensures var moved := Reflowed(WithLogic(c, d), to);
      && GrowsVertically(c.groups, moved.groups) && KeepsKeys(c.groups, moved.groups)
      && HasKey(moved.groups, d.key) && HasKey(moved.groups, to) && MapsInto(m, moved.groups)
      && |moved.groups| == |c.groups| + 1 && moved.groups[|c.groups|] == d.(y := moved.groups[|c.groups|].y)
      && (moved.groups[|c.groups|].y == d.y || moved.groups[|c.groups|].y == d.y + ShiftY)
  {
    var placed := WithLogic(c, d);
    assert placed.groups[|c.groups|] == d;
    var moved := Reflowed(placed, to);
    GrowsVerticallyTrans(c.groups, placed.groups, moved.groups);
    forall id | id in m ensures HasKey(moved.groups, m[id]) {
      assert HasKey(placed.groups, m[id]);
    }
  }

  /** `g` is the diamond of `target` gated by `condition`, under key `k`. */
  predicate IsDiamond(g: Group, k: Key, target: string, condition: string)
  {
    g.key == k && g.kind == Logic && g.name == "logic-for-" + target && g.logicCondition == condition
    && (condition != "" ==> g.text == condition)
  }

  /**
   * `g` sits where `loadTemplateData` puts the diamond under the source node
   * `f`: horizontally centred under it and 40 below its bottom, then moved
   * down by the reflow at most once. A computed coordinate of 0 falls back to
   * the default place `addLogicStep` gives logic number `n`.
   */
  predicate PlacedUnder(g: Group, f: Group, n: nat)
  {
    var x := f.x + NodeDims(f.kind).w / 2.0 - 70.0;
    var y := f.y + NodeDims(f.kind).h + 40.0;
    var y0 := if y != 0.0 then y else DefaultLogicY(n);
    g.x == (if x != 0.0 then x else 200.0) && (g.y == y0 || g.y == y0 + ShiftY)
  }

  /**
   * A new diamond is the one node added, named after its target and labelled
   * with the condition, and one green edge runs from it into `to`.
   */
  lemma NewDiamondShape(p: Progress, from: Key, to: Key, target: string, condition: string)
    requires Ready(p.canvas) && HasKey(p.canvas.groups, from) && HasKey(p.canvas.groups, to)
    requires MapsInto(p.logicNodes, p.canvas.groups)
    ensures var r := NewDiamond(p, from, to, target, condition);
      var c := p.canvas;
      && |r.canvas.groups| == |c.groups| + 1 && IsDiamond(r.canvas.groups[|c.groups|], c.nextKey, target, condition)
      && PlacedUnder(r.canvas.groups[|c.groups|], At(c.groups, from), NextLogicNumber(c.groups))
      && r.canvas.nextKey == c.nextKey + 1 && r.canvas.nextLine == c.nextLine + 1
      && |r.canvas.connections| == |c.connections| + 1 && r.canvas.connections[..|c.connections|] == c.connections
      && EdgeIs(r.canvas.connections[|c.connections|], c.nextKey, to, c.nextLine, Green)
  {
    var c := p.canvas;
    var d := LogicNode(c, Some(DiamondSpec(At(c.groups, from), "logic-for-" + target, condition)));
    DiamondKeepsNodes(c, d, to, p.logicNodes);
    ArrowAppends(Reflowed(WithLogic(c, d), to), c.nextKey, to, Green);
  }

  /** A connection into a gated target: a green edge from the source into the target's diamond. */
  function ThroughDiamond(p: Progress, from: Key, to: Key, target: string, condition: string): (r: Progress)
    requires Ready(p.canvas) && HasKey(p.canvas.groups, from) && HasKey(p.canvas.groups, to)
    requires MapsInto(p.logicNodes, p.canvas.groups)
    ensures Ready(r.canvas) && MapsInto(r.logicNodes, r.canvas.groups)
    ensures GrowsVertically(p.canvas.groups, r.canvas.groups) && KeepsKeys(p.canvas.groups, r.canvas.groups)
    ensures r.logicNodes.Keys == p.logicNodes.Keys + {target}
  {
    var q := DiamondCached(p, from, to, target, condition);
    Progress(WithArrow(q.canvas, from, q.logicNodes[target], Green), q.logicNodes)
  }

  /**
   * One turn of the connection loop. A connection whose ends are not both
   * loaded is skipped. One into a step gated by custom logic goes through
   * that step's diamond; any other connection is a black edge.
   */
  function ConnectionLoaded(data: TemplateData, stepMap: map<string, Key>, p: Progress, conn: ConnectionData)
    : (r: Progress)
    requires Tracks(p, stepMap)
    ensures Tracks(r, stepMap)
    ensures GrowsVertically(p.canvas.groups, r.canvas.groups)
  {
    if !(conn.fromStep in stepMap && conn.toStep in stepMap) then
      assert GrowsVertically(p.canvas.groups, p.canvas.groups);
      p
    else
      var from, to := stepMap[conn.fromStep], stepMap[conn.toStep];
      var target := FindStep(data.steps, conn.toStep);
      if target.Some? && Gated(target.value) then
        var r := ThroughDiamond(p, from, to, conn.toStep, target.value.customLogic);
        assert MapsInto(stepMap, r.canvas.groups);
        r
      else
        assert GrowsVertically(p.canvas.groups, p.canvas.groups);
        Progress(WithArrow(p.canvas, from, to, Black), p.logicNodes)
  }

  /** A connection with an end that was not loaded changes nothing. */
  lemma SkippedConnection(data: TemplateData, stepMap: map<string, Key>, p: Progress, conn: ConnectionData)
    requires Tracks(p, stepMap) && !(conn.fromStep in stepMap && conn.toStep in stepMap)
    ensures ConnectionLoaded(data, stepMap, p, conn) == p
  {
  }

  /** A connection into a step without custom logic: one black edge between the two loaded nodes. */
  lemma PlainConnection(data: TemplateData, stepMap: map<string, Key>, p: Progress, conn: ConnectionData)
    requires Tracks(p, stepMap) && stepMap.Keys == StepIds(data) && conn.fromStep in stepMap && conn.toStep in stepMap
    requires !GatesTarget(data, conn)
    ensures var r := ConnectionLoaded(data, stepMap, p, conn);
      && r.canvas.groups == p.canvas.groups && r.logicNodes == p.logicNodes
      && r.canvas.nextKey == p.canvas.nextKey && r.canvas.nextLine == p.canvas.nextLine + 1
      && |r.canvas.connections| == |p.canvas.connections| + 1
      && r.canvas.connections[..|p.canvas.connections|] == p.canvas.connections
      && EdgeIs(r.canvas.connections[|p.canvas.connections|],
                stepMap[conn.fromStep], stepMap[conn.toStep], p.canvas.nextLine, Black)
  {
  }

  /** `c` joins `from` to `to` under line `line` in colour `color`. */
  predicate EdgeIs(c: Connection, from: Key, to: Key, line: LineId, color: Color)
  {
    c.from == from && c.to == to && c.line == line && c.color == color
  }

  /** A connection into a gated target whose diamond exists: one green edge from the source into it. */
  lemma CachedDiamondConnection(data: TemplateData, stepMap: map<string, Key>, p: Progress, conn: ConnectionData)
    requires Tracks(p, stepMap) && stepMap.Keys == StepIds(data) && GatesTarget(data, conn)
    requires conn.toStep in p.logicNodes
    ensures var r := ConnectionLoaded(data, stepMap, p, conn);
      && r.canvas.groups == p.canvas.groups && r.logicNodes == p.logicNodes
      && r.canvas.nextKey == p.canvas.nextKey && r.canvas.nextLine == p.canvas.nextLine + 1
      && |r.canvas.connections| == |p.canvas.connections| + 1
      && r.canvas.connections[..|p.canvas.connections|] == p.canvas.connections
      && EdgeIs(r.canvas.connections[|p.canvas.connections|],
                stepMap[conn.fromStep], p.logicNodes[conn.toStep], p.canvas.nextLine, Green)
  {
  }

  /**
   * A connection into a gated target without a diamond yet: the diamond
   * for it is added under the next key, with a green edge into the target
   * and then a green edge from the source into the diamond.
   */
  lemma NewDiamondConnection(data: TemplateData, stepMap: map<string, Key>, p: Progress, conn: ConnectionData)
    requires Tracks(p, stepMap) && stepMap.Keys == StepIds(data) && GatesTarget(data, conn)
    requires conn.toStep !in p.logicNodes
    ensures var r := ConnectionLoaded(data, stepMap, p, conn);
      var c := p.canvas;
      && r.logicNodes == p.logicNodes[conn.toStep := c.nextKey]
      && r.canvas.nextKey == c.nextKey + 1 && r.canvas.nextLine == c.nextLine + 2
      && |r.canvas.groups| == |c.groups| + 1
      && IsDiamond(r.canvas.groups[|c.groups|], c.nextKey, conn.toStep, FindStep(data.steps, conn.toStep).value.customLogic)
      && PlacedUnder(r.canvas.groups[|c.groups|], At(c.groups, stepMap[conn.fromStep]), NextLogicNumber(c.groups))
      && |r.canvas.connections| == |c.connections| + 2 && r.canvas.connections[..|c.connections|] == c.connections
      && EdgeIs(r.canvas.connections[|c.connections|], c.nextKey, stepMap[conn.toStep], c.nextLine, Green)
      && EdgeIs(r.canvas.connections[|c.connections| + 1], stepMap[conn.fromStep], c.nextKey, c.nextLine + 1, Green)
  {
    GatedConnection(data, stepMap, p, conn);
    var from, to := stepMap[conn.fromStep], stepMap[conn.toStep];
    var condition := FindStep(data.steps, conn.toStep).value.customLogic;
    ThroughNewDiamond(p, from, to, conn.toStep, condition);
    ThroughNewDiamondEdges(p, from, to, conn.toStep, condition);
  }

  /** A connection into a gated target goes through that target's diamond. */
  lemma GatedConnection(data: TemplateData, stepMap: map<string, Key>, p: Progress, conn: ConnectionData)
    requires Tracks(p, stepMap) && stepMap.Keys == StepIds(data) && GatesTarget(data, conn)
    ensures ConnectionLoaded(data, stepMap, p, conn)
      == ThroughDiamond(p, stepMap[conn.fromStep], stepMap[conn.toStep], conn.toStep,
                        FindStep(data.steps, conn.toStep).value.customLogic)
  {
  }

  /** Through a new diamond: the diamond is the one node added, cached for its target, under the next key. */
  lemma ThroughNewDiamond(p: Progress, from: Key, to: Key, target: string, condition: string)
    requires Ready(p.canvas) && HasKey(p.canvas.groups, from) && HasKey(p.canvas.groups, to)
    requires MapsInto(p.logicNodes, p.canvas.groups) && target !in p.logicNodes
    ensures var r := ThroughDiamond(p, from, to, target, condition);
      var c := p.canvas;
      && r.logicNodes == p.logicNodes[target := c.nextKey]
      && r.canvas.nextKey == c.nextKey + 1 && r.canvas.nextLine == c.nextLine + 2
      && |r.canvas.groups| == |c.groups| + 1 && IsDiamond(r.canvas.groups[|c.groups|], c.nextKey, target, condition)
      && PlacedUnder(r.canvas.groups[|c.groups|], At(c.groups, from), NextLogicNumber(c.groups))
  {
    NewDiamondShape(p, from, to, target, condition);
  }

  /** Through a new diamond: the edge from the diamond into the target, then the edge from the source into the diamond. */
  lemma ThroughNewDiamondEdges(p: Progress, from: Key, to: Key, target: string, condition: string)
    requires Ready(p.canvas) && HasKey(p.canvas.groups, from) && HasKey(p.canvas.groups, to)
    requires MapsInto(p.logicNodes, p.canvas.groups) && target !in p.logicNodes
    ensures var r := ThroughDiamond(p, from, to, target, condition);
      var c := p.canvas;
      && |r.canvas.connections| == |c.connections| + 2 && r.canvas.connections[..|c.connections|] == c.connections
      && EdgeIs(r.canvas.connections[|c.connections|], c.nextKey, to, c.nextLine, Green)
      && EdgeIs(r.canvas.connections[|c.connections| + 1], from, c.nextKey, c.nextLine + 1, Green)
  {
    var q := NewDiamond(p, from, to, target, condition);
    NewDiamondShape(p, from, to, target, condition);
    ArrowAppends(q.canvas, from, p.canvas.nextKey, Green);
    PrefixTrans(p.canvas.connections, q.canvas.connections, WithArrow(q.canvas, from, p.canvas.nextKey, Green).connections);
  }

  /** The connection loop after its first `j` turns. */
  function ConnectionsLoaded(data: TemplateData, stepMap: map<string, Key>, p0: Progress, j: nat): (r: Progress)
    requires j <= |data.connections| && Tracks(p0, stepMap)
    ensures Tracks(r, stepMap)
    ensures GrowsVertically(p0.canvas.groups, r.canvas.groups)
    ensures p0.logicNodes == map[] && stepMap.Keys == StepIds(data) ==> CountsAt(data, p0, j, r)
  {
    if j == 0 then
      assert GrowsVertically(p0.canvas.groups, p0.canvas.groups);
      assert GatedTargets(data, 0) == {};
      p0
    else
      var p := ConnectionsLoaded(data, stepMap, p0, j - 1);
      var r := ConnectionLoaded(data, stepMap, p, data.connections[j - 1]);
      GrowsVerticallyTrans(p0.canvas.groups, p.canvas.groups, r.canvas.groups);
      if p0.logicNodes == map[] && stepMap.Keys == StepIds(data) then
        CountsNext(data, stepMap, p0, j, p);
        r
      else
        r
  }

  /**
   * One turn of the connection loop, counted: a connection that resolves
   * adds one edge, and a gated target without a diamond adds the diamond
   * and its edge into the target.
   */
  lemma ConnectionCounts(data: TemplateData, stepMap: map<string, Key>, p: Progress, conn: ConnectionData)
    requires Tracks(p, stepMap) && stepMap.Keys == StepIds(data)
    ensures var r := ConnectionLoaded(data, stepMap, p, conn);
      var resolved := if Resolves(data, conn) then 1 else 0;
      var added := if GatesTarget(data, conn) && conn.toStep !in p.logicNodes then 1 else 0;
      && r.logicNodes.Keys == p.logicNodes.Keys + (if GatesTarget(data, conn) then {conn.toStep} else {})
      && |r.canvas.groups| == |p.canvas.groups| + added && r.canvas.nextKey == p.canvas.nextKey + added
      && |r.canvas.connections| == |p.canvas.connections| + resolved + added
      && r.canvas.nextLine == p.canvas.nextLine + resolved + added
  {
    if !Resolves(data, conn) {
      SkippedConnection(data, stepMap, p, conn);
    } else if !GatesTarget(data, conn) {
      PlainConnection(data, stepMap, p, conn);
    } else if conn.toStep in p.logicNodes {
      CachedDiamondConnection(data, stepMap, p, conn);
    } else {
      NewDiamondConnection(data, stepMap, p, conn);
    }
  }

  /**
   * The counts after the first `j` connections: one diamond per gated
   * target, one edge per connection that resolves, and one more edge per
   * diamond.
   */
  ghost predicate CountsAt(data: TemplateData, p0: Progress, j: nat, r: Progress)
    requires j <= |data.connections|
  {
    var gated := |GatedTargets(data, j)|;
    && r.logicNodes.Keys == GatedTargets(data, j)
    && |r.canvas.groups| == |p0.canvas.groups| + gated && r.canvas.nextKey == p0.canvas.nextKey + gated
    && |r.canvas.connections| == |p0.canvas.connections| + ResolvedCount(data, j) + gated
    && r.canvas.nextLine == p0.canvas.nextLine + ResolvedCount(data, j) + gated
  }

  /** Turn `j` of the connection loop takes the counts from `j - 1` connections to `j`. */
  lemma CountsNext(data: TemplateData, stepMap: map<string, Key>, p0: Progress, j: nat, p: Progress)
    requires 0 < j <= |data.connections| && Tracks(p, stepMap) && stepMap.Keys == StepIds(data)
    requires CountsAt(data, p0, j - 1, p)
    ensures CountsAt(data, p0, j, ConnectionLoaded(data, stepMap, p, data.connections[j - 1]))
  {
    var conn := data.connections[j - 1];
    ConnectionCounts(data, stepMap, p, conn);
    var g := GatedTargets(data, j - 1);
    assert (conn.toStep in p.logicNodes) == (conn.toStep in g);
    var added := if GatesTarget(data, conn) && conn.toStep !in g then 1 else 0;
    GatedTargetsNext(data, j);
    MaybeAdd(g, conn.toStep, GatesTarget(data, conn));
    assert |GatedTargets(data, j)| == |g| + added;
    assert ResolvedCount(data, j) == ResolvedCount(data, j - 1) + if Resolves(data, conn) then 1 else 0;
  }

  /** Adding `t` to `g` when `b` holds grows `g` by one exactly when `t` is new. */
  lemma MaybeAdd(g: set<string>, t: string, b: bool)
    ensures |g + (if b then {t} else {})| == |g| + if b && t !in g then 1 else 0
  {
    if b && t in g {
      assert g + {t} == g;
    }
  }

  /** The steps, then the connections with an empty diamond cache, as `loadTemplateData` adds them to `c`. */
  function Loaded(data: TemplateData, c: Canvas): (r: Progress)
    requires Ready(c)
    ensures Ready(r.canvas)
    ensures GrowsVertically(LoadedSteps(c, data.steps).groups, r.canvas.groups)
    ensures var gated := GatedTargets(data, |data.connections|);
      && r.logicNodes.Keys == gated
      && |r.canvas.groups| == |c.groups| + |data.steps| + |gated|
      && r.canvas.nextKey == c.nextKey + |data.steps| + |gated|
      && |r.canvas.connections| == |c.connections| + ResolvedCount(data, |data.connections|) + |gated|
      && r.canvas.nextLine == c.nextLine + ResolvedCount(data, |data.connections|) + |gated|
  {
    var c1 := LoadedSteps(c, data.steps);
    var stepMap := StepMapOf(c.nextKey, data.steps);
    StepMapLoaded(c, data.steps);
    ConnectionsLoaded(data, stepMap, Progress(c1, map[]), |data.connections|)
  }

  /** The canvas loaded from `data`, then centred on the stage. */
  function LoadedAndCentered(data: TemplateData, c: Canvas, stageW: real, stageH: real): (r: Canvas)
    requires Ready(c)
    ensures Ready(r)
    ensures var l := Loaded(data, c).canvas;
      && |r.groups| == |l.groups| && r.nextKey == l.nextKey && r.nextLine == l.nextLine
      && (forall i :: 0 <= i < |l.groups| ==> r.groups[i] == l.groups[i].(x := r.groups[i].x, y := r.groups[i].y))
      && |r.connections| == |l.connections|
      && (forall i :: 0 <= i < |l.connections| ==> r.connections[i] == l.connections[i].(points := r.connections[i].points))
      && r.groups == Centered(l.groups, stageW, stageH, DefaultPadding)
  {
    CenteredOnStage(Loaded(data, c).canvas, stageW, stageH)
  }

  /**
   * `centerDiagramOnStage` on a canvas: the nodes centred with the default
   * padding and, when there are nodes, every edge redrawn. Only positions
   * and drawn points change.
   */
  function CenteredOnStage(l: Canvas, stageW: real, stageH: real): (r: Canvas)
    requires Ready(l)
    ensures Ready(r)
    ensures |r.groups| == |l.groups| && r.nextKey == l.nextKey && r.nextLine == l.nextLine
    ensures forall i :: 0 <= i < |l.groups| ==> r.groups[i] == l.groups[i].(x := r.groups[i].x, y := r.groups[i].y)
    ensures |r.connections| == |l.connections|
    ensures forall i :: 0 <= i < |l.connections| ==> r.connections[i] == l.connections[i].(points := r.connections[i].points)
    ensures r.groups == Centered(l.groups, stageW, stageH, DefaultPadding)
    ensures l.groups != [] ==> r.connections == Rerouted(r.groups, l.connections)
  {
    var gs := Centered(l.groups, stageW, stageH, DefaultPadding);
    SameKeysLinked(l.groups, gs, l.connections);
    assert forall i :: 0 <= i < |gs| ==> gs[i].key < l.nextKey by {
      forall i | 0 <= i < |gs| ensures gs[i].key < l.nextKey { assert gs[i].key == l.groups[i].key; }
    }
    ReroutedKeepsEdges(gs, l.connections);
    Canvas(gs, if l.groups == [] then l.connections else Rerouted(gs, l.connections), l.nextKey, l.nextLine)
  }
}
