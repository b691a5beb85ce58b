/**
 * The value-level rules behind the editor's event handlers: edge routing
 * after a move, deletion filters, the load-time reflow, the logic-condition
 * check and the data shapes the template loader returns.
 */
module Editing {
  import opened Wrappers
  import opened JsText
  import opened Graph
  import opened Layout
  import opened Serializer

  /** Vertical room reserved when a logic diamond is inserted at load time. */
  const ShiftY: real := 200.0

  // ------------------------------------------------------------ loader data

  /** A step as the template loader returns it; a missing text field is "". */
  datatype StepData = StepData(
    id: string,
    templateId: Option<string>,
    text: string,
    inProgressRequirement: string,
    customLogic: string,
    x: Option<real>,
    y: Option<real>)

  datatype ConnectionData = ConnectionData(fromStep: string, toStep: string)

  datatype TemplateData = TemplateData(
    processName: string,
    stepsToComplete: string,
    templateId: Option<string>,
    steps: seq<StepData>,
    connections: seq<ConnectionData>)

  /** The object `addLogicStep` receives during a load. */
  datatype LogicSpec = LogicSpec(id: string, x: real, y: real, text: string, condition: string)

  /** `v || d` for a number that may be missing: 0 and a missing value both give `d`. */
  function OrNumber(v: Option<real>, d: real): real
  {
    if v.None? || v.value == 0.0 then d else v.value
  }

  /** `s || d` for a string: the empty string gives `d`. */
  function OrText(s: string, d: string): string
  {
    if s == "" then d else s
  }

  /** `data.steps.find(s => s.id === id)`. */
  function FindStep(steps: seq<StepData>, id: string): (r: Option<StepData>)
    ensures r.Some? ==> r.value in steps && r.value.id == id
    ensures r.Some? ==> exists i :: FirstWithId(steps, i, id) && steps[i] == r.value
    ensures r.None? ==> forall s :: s in steps ==> s.id != id
  {
    if steps == [] then None
    else if steps[0].id == id then
      assert FirstWithId(steps, 0, id);
      Some(steps[0])
    else
      var r := FindStep(steps[1..], id);
      if r.Some? then
        var i :| FirstWithId(steps[1..], i, id) && steps[1..][i] == r.value;
        assert FirstWithId(steps, i + 1, id);
        r
      else r
  }

  /** `steps[i]` is the first step with that id. */
  predicate FirstWithId(steps: seq<StepData>, i: int, id: string)
  {
    0 <= i < |steps| && steps[i].id == id && forall j :: 0 <= j < i ==> steps[j].id != id
  }

  /** A target governed by custom logic. */
  predicate Gated(s: StepData)
  {
    s.inProgressRequirement == CustomLogic && s.customLogic != ""
  }

  /** The ids of a list of loaded steps. */
  function IdsOf(steps: seq<StepData>): set<string>
  {
    if steps == [] then {} else IdsOf(steps[..|steps| - 1]) + {steps[|steps| - 1].id}
  }

  lemma {:induction false} IdsOfSpec(steps: seq<StepData>, id: string)
    ensures id in IdsOf(steps) <==> exists j :: 0 <= j < |steps| && steps[j].id == id
  {
    if steps != [] {
      var p := steps[..|steps| - 1];
      IdsOfSpec(p, id);
      assert forall j :: 0 <= j < |p| ==> p[j] == steps[j];
    }
  }

  function StepIds(data: TemplateData): set<string>
  {
    IdsOf(data.steps)
  }

  /** Both ends of a loaded connection name a loaded step; otherwise it is skipped. */
  predicate Resolves(data: TemplateData, c: ConnectionData)
  {
    c.fromStep in StepIds(data) && c.toStep in StepIds(data)
  }

  predicate GatesTarget(data: TemplateData, c: ConnectionData)
  {
    Resolves(data, c) && FindStep(data.steps, c.toStep).Some? && Gated(FindStep(data.steps, c.toStep).value)
  }

  /** Targets of the first `n` loaded connections that get a logic diamond. */
  function GatedTargets(data: TemplateData, n: nat): set<string>
    requires n <= |data.connections|
  {
    set j | 0 <= j < n && GatesTarget(data, data.connections[j]) :: data.connections[j].toStep
  }

  /** Taking one more connection adds its target when that target is gated. */
  lemma GatedTargetsNext(data: TemplateData, n: nat)
    requires 0 < n <= |data.connections|
    ensures GatedTargets(data, n) ==
      GatedTargets(data, n - 1) + if GatesTarget(data, data.connections[n - 1]) then {data.connections[n - 1].toStep} else {}
  {
  }

  /** How many of the first `n` loaded connections resolve. */
  function ResolvedCount(data: TemplateData, n: nat): nat
    requires n <= |data.connections|
  {
    if n == 0 then 0
    else ResolvedCount(data, n - 1) + if Resolves(data, data.connections[n - 1]) then 1 else 0
  }

  /** How a template literal prints the selected template id; `None` is `null`. */
  function SelectedText(t: Option<string>): string
  {
    match t
    case Some(s) => s
    case None => "null"
  }

  /**
   * The step node `addStep` appends. `n` is the smallest unused step number;
   * it names and labels a new step and places a loaded step that has no
   * position.
   */
  function NewStep(k: Key, n: int, spec: Option<StepData>, selectedTemplateId: Option<string>,
                   templates: seq<TemplateInfo>): (g: Group)
    requires n >= 1
    ensures g.key == k && g.kind == Step && g.logicCondition == ""
    ensures spec.None? ==> ParseStepNumber(g.name) == Some(n) && g.templateId == selectedTemplateId
    ensures spec.None? ==> g.x == 50.0 && g.y == 10.0 + (n - 1) as real * 100.0
    ensures spec.Some? ==> g == LoadedStep(k, n, spec.value)
  {
    ParseStepNumberOfStepName(n, SelectedText(selectedTemplateId));
    match spec
    case None =>
      Group(k, StepName(n, SelectedText(selectedTemplateId)), Step, 50.0, 10.0 + (n - 1) as real * 100.0,
            selectedTemplateId, "", StepLabel(n, TemplateName(templates, selectedTemplateId)))
    case Some(s) => LoadedStep(k, n, s)
  }

  /**
   * The node `addStep` makes for a loaded step: its id as name, its template
   * and text, and its saved position; a missing or zero coordinate falls back
   * to the place a new step numbered `n` would take.
   */
  function LoadedStep(k: Key, n: int, s: StepData): (g: Group)
    ensures g.key == k && g.kind == Step && g.logicCondition == ""
    ensures g.name == s.id && g.templateId == s.templateId && g.text == s.text
    ensures g.x == if s.x.Some? && s.x.value != 0.0 then s.x.value else 50.0
    ensures g.y == if s.y.Some? && s.y.value != 0.0 then s.y.value else 10.0 + (n - 1) as real * 100.0
  {
    Group(k, s.id, Step, OrNumber(s.x, 50.0), OrNumber(s.y, 10.0 + (n - 1) as real * 100.0),
          s.templateId, "", s.text)
  }

  /** How many logic nodes are named `logic-<number>…`; `addLogicStep` numbers the next one after them. */
  function NumberedLogicCount(gs: seq<Group>): (r: nat)
    ensures r <= |gs|
    ensures (forall i :: 0 <= i < |gs| ==> gs[i].kind == Step) ==> r == 0
  {
    if gs == [] then 0
    else NumberedLogicCount(gs[1..])
         + if gs[0].kind == Logic && ParseInt(RemoveFirst(gs[0].name, "logic-")).Some? then 1 else 0
  }

  /** Where `addLogicStep` puts logic number `n` when no height is given: 80 apart from 100 down. */
  function DefaultLogicY(n: nat): (y: real)
    ensures n >= 1 ==> y >= 100.0
  {
    100.0 + (n as real - 1.0) * 80.0
  }

  /**
   * The logic node `addLogicStep` appends as logic number `n`. Each field
   * the caller leaves out, empty or zero falls back to its default: the name
   * `logic-n`, the condition as label or else `Logic n`, and the place
   * (200, 100 + (n - 1) * 80).
   */
  function NewLogic(k: Key, n: nat, spec: Option<LogicSpec>): (g: Group)
    ensures g.key == k && g.kind == Logic && g.templateId == None
    ensures g.logicCondition == if spec.Some? then spec.value.condition else ""
    ensures g.name == if spec.Some? && spec.value.id != "" then spec.value.id else "logic-" + NatToString(n)
    ensures g.text == if spec.Some? && spec.value.text != "" then spec.value.text
                      else if spec.Some? && spec.value.condition != "" then spec.value.condition
                      else "Logic " + NatToString(n)
    ensures g.x == if spec.Some? && spec.value.x != 0.0 then spec.value.x else 200.0
    ensures g.y == if spec.Some? && spec.value.y != 0.0 then spec.value.y else DefaultLogicY(n)
  {
    match spec
    case None =>
      Group(k, "logic-" + NatToString(n), Logic, 200.0, DefaultLogicY(n),
            None, "", "Logic " + NatToString(n))
    case Some(l) =>
      Group(k, OrText(l.id, "logic-" + NatToString(n)), Logic, OrNumber(Some(l.x), 200.0),
            OrNumber(Some(l.y), DefaultLogicY(n)), None, l.condition,
            OrText(l.text, OrText(l.condition, "Logic " + NatToString(n))))
  }

  /**
   * The diamond `loadTemplateData` asks for: centred under the source node
   * `f`, 40 below it, labelled and conditioned with the target's custom logic.
   */
  function DiamondSpec(f: Group, id: string, condition: string): (l: LogicSpec)
    ensures l.id == id && l.text == condition && l.condition == condition
    ensures l.x + LogicSize.w / 2.0 == f.x + NodeDims(f.kind).w / 2.0
    ensures l.y == f.y + NodeDims(f.kind).h + 40.0
  {
    LogicSpec(id, f.x + NodeDims(f.kind).w / 2.0 - 70.0, f.y + NodeDims(f.kind).h + 40.0, condition, condition)
  }

  /** A new edge before `drawArrow` computes its points. */
  function NewEdge(from: Key, to: Key, line: LineId, color: Color): Connection
  {
    Connection(from, to, line, Points(0.0, 0.0, 0.0, 0.0), color)
  }

  // ------------------------------------------------------------ routing

  /** `drawArrow` / `recomputeConnections`: both ends measured with `nodeDims`. */
  function RoutedByDims(gs: seq<Group>, c: Connection): Connection
    requires HasKey(gs, c.from) && HasKey(gs, c.to)
  {
    var f := At(gs, c.from);
    var t := At(gs, c.to);
    c.(points := Route(f.x, f.y, NodeDims(f.kind), t.x, t.y, NodeDims(t.kind)))
  }

  /** The step drag handler and new click edges: both ends measured as 140×70 steps. */
  function RoutedAsSteps(gs: seq<Group>, c: Connection): Connection
    requires HasKey(gs, c.from) && HasKey(gs, c.to)
  {
    var f := At(gs, c.from);
    var t := At(gs, c.to);
    c.(points := Route(f.x, f.y, StepSize, t.x, t.y, StepSize))
  }

  /** `recomputeConnections`: every edge redrawn from the current positions. */
  function Rerouted(gs: seq<Group>, cs: seq<Connection>): (r: seq<Connection>)
    requires Linked(gs, cs)
    ensures |r| == |cs|
  {
    seq(|cs|, i requires 0 <= i < |cs| => RoutedByDims(gs, cs[i]))
  }

  /** The step drag handler: only the edges touching the dragged step are redrawn. */
  function ReroutedAround(gs: seq<Group>, cs: seq<Connection>, k: Key): (r: seq<Connection>)
    requires Linked(gs, cs)
    ensures |r| == |cs|
  {
    seq(|cs|, i requires 0 <= i < |cs| => if Incident(cs[i], k) then RoutedAsSteps(gs, cs[i]) else cs[i])
  }

  /**
   * Rerouting changes only the drawn points, and redrawing again from the same
   * positions changes nothing.
   */
  lemma ReroutedKeepsEdges(gs: seq<Group>, cs: seq<Connection>)
    requires Linked(gs, cs)
    ensures Linked(gs, Rerouted(gs, cs))
    ensures forall i :: 0 <= i < |cs| ==>
      var r := Rerouted(gs, cs)[i];
      r.from == cs[i].from && r.to == cs[i].to && r.line == cs[i].line && r.color == cs[i].color
    ensures Rerouted(gs, Rerouted(gs, cs)) == Rerouted(gs, cs)
  {
  }

  /** Moving every node by one offset moves every rerouted edge by that offset. */
  lemma ReroutedTranslates(gs: seq<Group>, cs: seq<Connection>, dx: real, dy: real)
    requires Linked(gs, cs)
    ensures Linked(Translated(gs, dx, dy), cs)
    ensures forall i :: 0 <= i < |cs| ==>
      var p := Rerouted(gs, cs)[i].points;
      Rerouted(Translated(gs, dx, dy), cs)[i].points == Points(p.x1 + dx, p.y1 + dy, p.x2 + dx, p.y2 + dy)
  {
    var t := Translated(gs, dx, dy);
    assert SameKeys(gs, t);
    forall k ensures FindIndex(gs, k) == FindIndex(t, k) {
      FindIndexSameKeys(gs, t, k);
    }
    forall i | 0 <= i < |cs|
      ensures var p := Rerouted(gs, cs)[i].points;
        Rerouted(t, cs)[i].points == Points(p.x1 + dx, p.y1 + dy, p.x2 + dx, p.y2 + dy)
    {
      var f := At(gs, cs[i].from);
      var g := At(gs, cs[i].to);
      RouteTranslates(f.x, f.y, NodeDims(f.kind), g.x, g.y, NodeDims(g.kind), dx, dy);
    }
  }

  /**
   * The state `centerDiagramOnStage` leaves (nodes centred, every edge
   * redrawn) is a fixed point: a second call moves nothing and redraws the
   * same points.
   */
  lemma CenterStateIdempotent(gs: seq<Group>, cs: seq<Connection>, stageW: real, stageH: real, padding: real)
    requires Linked(gs, cs)
    ensures var g1 := Centered(gs, stageW, stageH, padding);
      && Linked(g1, cs)
      && Centered(g1, stageW, stageH, padding) == g1
      && Rerouted(g1, Rerouted(g1, cs)) == Rerouted(g1, cs)
  {
    var g1 := Centered(gs, stageW, stageH, padding);
    SameKeysLinked(gs, g1, cs);
    CenteredIdempotent(gs, stageW, stageH, padding);
    ReroutedKeepsEdges(g1, cs);
  }

  // ------------------------------------------------------------ selection

  /** Some edge runs from `a` to `b` in that direction. */
  predicate HasEdge(cs: seq<Connection>, a: Key, b: Key)
  {
    exists i :: 0 <= i < |cs| && cs[i].from == a && cs[i].to == b
  }

  predicate HasLine(cs: seq<Connection>, l: LineId)
  {
    exists i :: 0 <= i < |cs| && cs[i].line == l
  }

  predicate DistinctLines(cs: seq<Connection>)
  {
    forall i, j :: 0 <= i < j < |cs| ==> cs[i].line != cs[j].line
  }

  /** No two edges run between the same nodes in the same direction. */
  predicate NoDuplicateEdges(cs: seq<Connection>)
  {
    forall i, j :: 0 <= i < j < |cs| ==> !(cs[i].from == cs[j].from && cs[i].to == cs[j].to)
  }

  /** The edges after a click joins `c.from` to `c.to`. */
  function Joined(cs: seq<Connection>, c: Connection): seq<Connection>
  {
    if HasEdge(cs, c.from, c.to) then cs else cs + [c]
  }

  /**
   * A click that joins two nodes appends an edge only when none runs that
   * way yet, so a diagram drawn by clicks never holds a duplicate edge.
   */
  lemma ClickEdgeKeepsNoDuplicates(cs: seq<Connection>, c: Connection)
    ensures var r := Joined(cs, c);
      && (NoDuplicateEdges(cs) ==> NoDuplicateEdges(r))
      && HasEdge(r, c.from, c.to)
      && (forall a, b :: HasEdge(r, a, b) <==> HasEdge(cs, a, b) || (a == c.from && b == c.to))
  {
    var r := Joined(cs, c);
    forall a, b ensures HasEdge(r, a, b) <==> HasEdge(cs, a, b) || (a == c.from && b == c.to) {
      if HasEdge(cs, a, b) {
        var i :| 0 <= i < |cs| && cs[i].from == a && cs[i].to == b;
        assert r[i] == cs[i];
      }
      if !HasEdge(cs, c.from, c.to) {
        assert r[|cs|] == c;
        if HasEdge(r, a, b) {
          var i :| 0 <= i < |r| && r[i].from == a && r[i].to == b;
          if i < |cs| { assert cs[i] == r[i]; }
        }
      }
    }
  }

  /** The node list with node `k` moved to `(x, y)`; every other node stays as it was. */
  function MovedTo(gs: seq<Group>, k: Key, x: real, y: real): (r: seq<Group>)
    ensures SameKeys(gs, r)
    ensures HasKey(gs, k) ==> HasKey(r, k) && At(r, k) == At(gs, k).(x := x, y := y)
    ensures forall j :: j != k && HasKey(gs, j) ==> HasKey(r, j) && At(r, j) == At(gs, j)
  {
    var r := seq(|gs|, i requires 0 <= i < |gs| => if gs[i].key == k then gs[i].(x := x, y := y) else gs[i]);
    SameKeysAgree(gs, r);
    r
  }

  /**
   * The step drag handler measures both ends as steps. Where both ends of an
   * edge are steps this is the same drawing `recomputeConnections` gives, and
   * edges away from the dragged node keep their drawing.
   */
  lemma StepDragAgreesWithRecompute(gs: seq<Group>, cs: seq<Connection>, k: Key)
    requires Linked(gs, cs)
    ensures forall i :: 0 <= i < |cs| && !Incident(cs[i], k) ==> ReroutedAround(gs, cs, k)[i] == cs[i]
    ensures forall i :: 0 <= i < |cs| && Incident(cs[i], k) ==>
      (At(gs, cs[i].from).kind == Step && At(gs, cs[i].to).kind == Step ==>
         ReroutedAround(gs, cs, k)[i] == Rerouted(gs, cs)[i])
  {
  }

  // ------------------------------------------------------------ invariant

  /**
   * What the editor keeps true between events: node keys and line ids are
   * distinct and below the next fresh id, every edge joins two nodes on the
   * canvas, and a selection names something that exists.
   */
  predicate Consistent(gs: seq<Group>, cs: seq<Connection>, nextKey: nat, nextLine: nat,
                       selectedGroup: Option<Key>, selectedConnection: Option<LineId>)
  {
    && DistinctKeys(gs) && (forall i :: 0 <= i < |gs| ==> gs[i].key < nextKey)
    && DistinctLines(cs) && (forall i :: 0 <= i < |cs| ==> cs[i].line < nextLine)
    && Linked(gs, cs)
    && (selectedGroup.Some? ==> HasKey(gs, selectedGroup.value))
    && (selectedConnection.Some? ==> HasLine(cs, selectedConnection.value))
  }

  /** Moving, renaming or relabelling nodes keeps the invariant. */
  lemma ConsistentSameKeys(g0: seq<Group>, g1: seq<Group>, cs: seq<Connection>, nextKey: nat, nextLine: nat,
                           sg: Option<Key>, sc: Option<LineId>)
    requires Consistent(g0, cs, nextKey, nextLine, sg, sc) && SameKeys(g0, g1)
    ensures Consistent(g1, cs, nextKey, nextLine, sg, sc)
  {
    SameKeysAgree(g0, g1);
  }

  /** Adding a node under the next fresh key keeps the invariant and every earlier lookup. */
  lemma ConsistentAddNode(gs: seq<Group>, cs: seq<Connection>, g: Group, nextKey: nat, nextLine: nat,
                          sg: Option<Key>, sc: Option<LineId>)
    requires Consistent(gs, cs, nextKey, nextLine, sg, sc) && g.key == nextKey
    ensures Consistent(gs + [g], cs, nextKey + 1, nextLine, sg, sc)
    ensures forall k :: HasKey(gs, k) ==> HasKey(gs + [g], k) && At(gs + [g], k) == At(gs, k)
    ensures HasKey(gs + [g], g.key) && At(gs + [g], g.key) == g
  {
    assert !HasKey(gs, g.key);
    AppendKeepsLookups(gs, g, cs);
  }

  /** Adding an edge between two existing nodes under the next fresh line id keeps the invariant. */
  lemma ConsistentAddEdge(gs: seq<Group>, cs: seq<Connection>, c: Connection, nextKey: nat, nextLine: nat,
                          sg: Option<Key>, sc: Option<LineId>)
    requires Consistent(gs, cs, nextKey, nextLine, sg, sc)
    requires c.line == nextLine && HasKey(gs, c.from) && HasKey(gs, c.to)
    ensures Consistent(gs, cs + [c], nextKey, nextLine + 1, sg, sc)
  {
    var r := cs + [c];
    if sc.Some? {
      var i :| 0 <= i < |cs| && cs[i].line == sc.value;
      assert r[i] == cs[i];
    }
  }

  /** Two edge lists that differ only in their drawn points and colours. */
  predicate SameEnds(a: seq<Connection>, b: seq<Connection>)
  {
    |a| == |b| && forall i :: 0 <= i < |a| ==> a[i].from == b[i].from && a[i].to == b[i].to && a[i].line == b[i].line
  }

  /** Redrawing edges keeps the invariant. */
  lemma ConsistentSameEnds(gs: seq<Group>, c0: seq<Connection>, c1: seq<Connection>, nextKey: nat, nextLine: nat,
                           sg: Option<Key>, sc: Option<LineId>)
    requires Consistent(gs, c0, nextKey, nextLine, sg, sc) && SameEnds(c0, c1)
    ensures Consistent(gs, c1, nextKey, nextLine, sg, sc)
  {
    if sc.Some? {
      var i :| 0 <= i < |c0| && c0[i].line == sc.value;
      assert c1[i].line == sc.value;
    }
  }

  // ------------------------------------------------------------ deletion

  /** `connections.filter(c => c.line !== line)`. */
  function WithoutLine(cs: seq<Connection>, l: LineId): (r: seq<Connection>)
    ensures forall c :: c in r <==> c in cs && c.line != l
  {
    if cs == [] then []
    else (if cs[0].line != l then [cs[0]] else []) + WithoutLine(cs[1..], l)
  }

  /** `connections.filter(c => c.from !== k && c.to !== k)`. */
  function WithoutIncident(cs: seq<Connection>, k: Key): (r: seq<Connection>)
    ensures forall c :: c in r <==> c in cs && !Incident(c, k)
  {
    if cs == [] then []
    else (if !Incident(cs[0], k) then [cs[0]] else []) + WithoutIncident(cs[1..], k)
  }

  /** `groups.filter(g => g !== group)`. */
  function WithoutKey(gs: seq<Group>, k: Key): (r: seq<Group>)
    ensures forall g :: g in r <==> g in gs && g.key != k
  {
    if gs == [] then []
    else (if gs[0].key != k then [gs[0]] else []) + WithoutKey(gs[1..], k)
  }

  /**
   * Deleting the selected edge removes exactly one edge when line ids are
   * unique, and the line is gone afterwards.
   */
  lemma {:induction false} WithoutLineRemovesOne(cs: seq<Connection>, l: LineId)
    requires DistinctLines(cs)
    ensures DistinctLines(WithoutLine(cs, l))
    ensures !HasLine(WithoutLine(cs, l), l)
    ensures |WithoutLine(cs, l)| == if HasLine(cs, l) then |cs| - 1 else |cs|
  {
    if cs != [] {
      var t := cs[1..];
      assert DistinctLines(t);
      WithoutLineRemovesOne(t, l);
      assert cs == [cs[0]] + t;
      HasLineCons(cs[0], t, l);
      if cs[0].line == l {
        forall i | 0 <= i < |t| ensures t[i].line != l {
          assert t[i] == cs[i + 1];
        }
      } else {
        var r := WithoutLine(t, l);
        forall x | x in r ensures x.line != cs[0].line {
          var m :| 0 <= m < |t| && t[m] == x;
          assert cs[m + 1] == x;
        }
        ConsDistinct(cs[0], r);
        HasLineCons(cs[0], r, l);
      }
    }
  }

  /** An edge line differing from every later one keeps the lines distinct. */
  lemma ConsDistinct(c: Connection, r: seq<Connection>)
    requires DistinctLines(r) && forall x :: x in r ==> x.line != c.line
    ensures DistinctLines([c] + r)
  {
    forall i, j | 0 <= i < j < |r| + 1 ensures ([c] + r)[i].line != ([c] + r)[j].line {
      if i == 0 { assert ([c] + r)[j] == r[j - 1]; }
    }
  }

  lemma HasLineCons(c: Connection, r: seq<Connection>, l: LineId)
    ensures HasLine([c] + r, l) <==> c.line == l || HasLine(r, l)
  {
    assert ([c] + r)[0] == c;
    if HasLine(r, l) {
      var i :| 0 <= i < |r| && r[i].line == l;
      assert ([c] + r)[i + 1] == r[i];
    }
    if HasLine([c] + r, l) && c.line != l {
      var i :| 0 <= i < |r| + 1 && ([c] + r)[i].line == l;
      assert r[i - 1] == ([c] + r)[i];
    }
  }

  lemma {:induction false} WithoutIncidentDistinct(cs: seq<Connection>, k: Key)
    requires DistinctLines(cs)
    ensures DistinctLines(WithoutIncident(cs, k))
  {
    if cs != [] {
      WithoutIncidentDistinct(cs[1..], k);
      var r := WithoutIncident(cs[1..], k);
      if !Incident(cs[0], k) {
        forall i, j | 0 <= i < j < |r| + 1 ensures ([cs[0]] + r)[i].line != ([cs[0]] + r)[j].line {
          if i == 0 { assert r[j - 1] in cs[1..]; }
        }
      }
    }
  }

  lemma {:induction false} WithoutKeyDistinct(gs: seq<Group>, k: Key)
    requires DistinctKeys(gs)
    ensures DistinctKeys(WithoutKey(gs, k))
  {
    if gs != [] {
      WithoutKeyDistinct(gs[1..], k);
      var r := WithoutKey(gs[1..], k);
      if gs[0].key != k {
        forall i, j | 0 <= i < j < |r| + 1 ensures ([gs[0]] + r)[i].key != ([gs[0]] + r)[j].key {
          if i == 0 { assert r[j - 1] in gs[1..]; }
        }
      }
    }
  }

  /**
   * Deleting a node and its incident edges leaves no dangling edge: every
   * remaining edge joins two remaining nodes, and every other node survives.
   */
  lemma DeleteNodeKeepsLinks(gs: seq<Group>, cs: seq<Connection>, k: Key)
    requires Linked(gs, cs)
    ensures Linked(WithoutKey(gs, k), WithoutIncident(cs, k))
    ensures forall j :: HasKey(WithoutKey(gs, k), j) <==> HasKey(gs, j) && j != k
  {
    var r := WithoutKey(gs, k);
    forall j ensures HasKey(r, j) <==> HasKey(gs, j) && j != k {
      HasKeyIff(r, j);
      HasKeyIff(gs, j);
      if HasKey(gs, j) && j != k {
        var i :| 0 <= i < |gs| && gs[i].key == j;
        assert gs[i] in r;
      }
      if HasKey(r, j) {
        var i :| 0 <= i < |r| && r[i].key == j;
        assert r[i] in gs;
      }
    }
    var rc := WithoutIncident(cs, k);
    forall i | 0 <= i < |rc| ensures HasKey(r, rc[i].from) && HasKey(r, rc[i].to) {
      assert rc[i] in cs;
      var j :| 0 <= j < |cs| && cs[j] == rc[i];
    }
  }

  /** Deleting the selected edge keeps the invariant and clears the edge selection. */
  lemma ConsistentDeleteLine(gs: seq<Group>, cs: seq<Connection>, l: LineId, nextKey: nat, nextLine: nat,
                             sg: Option<Key>)
    requires Consistent(gs, cs, nextKey, nextLine, sg, Some(l))
    ensures Consistent(gs, WithoutLine(cs, l), nextKey, nextLine, sg, None)
    ensures |WithoutLine(cs, l)| == |cs| - 1 && !HasLine(WithoutLine(cs, l), l)
  {
    WithoutLineRemovesOne(cs, l);
    var r := WithoutLine(cs, l);
    forall i | 0 <= i < |r| ensures HasKey(gs, r[i].from) && HasKey(gs, r[i].to) && r[i].line < nextLine {
      assert r[i] in cs;
    }
  }

  /** Deleting the selected node with its edges keeps the invariant and clears the selection. */
  lemma ConsistentDeleteNode(gs: seq<Group>, cs: seq<Connection>, k: Key, nextKey: nat, nextLine: nat)
    requires Consistent(gs, cs, nextKey, nextLine, Some(k), None)
    ensures Consistent(WithoutKey(gs, k), WithoutIncident(cs, k), nextKey, nextLine, None, None)
    ensures !HasKey(WithoutKey(gs, k), k) && |WithoutKey(gs, k)| == |gs| - 1
  {
    DeleteNodeKeepsLinks(gs, cs, k);
    WithoutKeyDistinct(gs, k);
    WithoutIncidentDistinct(cs, k);
    WithoutKeyDropsOne(gs, k);
    var r := WithoutKey(gs, k);
    forall i | 0 <= i < |r| ensures r[i].key < nextKey { assert r[i] in gs; }
    var rc := WithoutIncident(cs, k);
    forall i | 0 <= i < |rc| ensures rc[i].line < nextLine { assert rc[i] in cs; }
  }

  /** With distinct keys, removing a present key removes exactly one node. */
  lemma {:induction false} WithoutKeyDropsOne(gs: seq<Group>, k: Key)
    requires DistinctKeys(gs)
    ensures |WithoutKey(gs, k)| == if HasKey(gs, k) then |gs| - 1 else |gs|
  {
    WithoutKeyKeepsOrder(gs, k);
  }

  /**
   * With distinct keys, removing a key cuts exactly its node out of the list
   * and keeps the others in their order; an absent key removes nothing.
   */
  lemma {:induction false} WithoutKeyKeepsOrder(gs: seq<Group>, k: Key)
    requires DistinctKeys(gs)
    ensures var i := FindIndex(gs, k);
      WithoutKey(gs, k) == if i < |gs| then gs[..i] + gs[i + 1..] else gs
  {
    if gs != [] {
      var t := gs[1..];
      assert DistinctKeys(t) by {
        forall i, j | 0 <= i < j < |t| ensures t[i].key != t[j].key { assert t[i] == gs[i + 1] && t[j] == gs[j + 1]; }
      }
      if gs[0].key == k {
        forall i | 0 <= i < |t| ensures t[i].key != k { assert t[i] == gs[i + 1]; }
        WithoutAbsentKey(t, k);
      } else {
        WithoutKeyKeepsOrder(t, k);
        var i := FindIndex(t, k);
        if i < |t| {
          CutAfterHead(gs, i);
        }
      }
    }
  }

  /** Cutting position i + 1 out of a list is cutting position i out of its tail. */
  lemma CutAfterHead(gs: seq<Group>, i: nat)
    requires i + 1 < |gs|
    ensures [gs[0]] + (gs[1..][..i] + gs[1..][i + 1..]) == gs[..i + 1] + gs[i + 2..]
  {
    assert gs[..i + 1] == [gs[0]] + gs[1..][..i];
    assert gs[i + 2..] == gs[1..][i + 1..];
  }

  /** Removing a key no node has keeps the list. */
  lemma {:induction false} WithoutAbsentKey(gs: seq<Group>, k: Key)
    requires forall i :: 0 <= i < |gs| ==> gs[i].key != k
    ensures WithoutKey(gs, k) == gs
  {
    if gs != [] {
      WithoutAbsentKey(gs[1..], k);
      assert [gs[0]] + gs[1..] == gs;
    }
  }

  // ------------------------------------------------------------ load reflow

  /**
   * The load-time reflow of node `i` when the target sits at index `t`. The
   * source re-reads the target's y for every node, and the target itself is
   * always moved, so nodes after it in list order are compared with its
   * moved position.
   */
  function ShiftedForLoad(gs: seq<Group>, t: nat, i: nat): (r: Group)
    requires t < |gs| && i < |gs|
    ensures r == gs[i].(y := r.y) && (r.y == gs[i].y || r.y == gs[i].y + ShiftY)
  {
    var threshold := if i > t then gs[t].y + ShiftY else gs[t].y;
    if gs[i].y >= threshold then gs[i].(y := gs[i].y + ShiftY) else gs[i]
  }

  function ShiftedAllForLoad(gs: seq<Group>, t: nat): (r: seq<Group>)
    requires t < |gs|
    ensures SameKeys(gs, r)
    ensures forall i :: 0 <= i < |gs| ==> r[i] == gs[i].(y := r[i].y)
  {
    seq(|gs|, i requires 0 <= i < |gs| => ShiftedForLoad(gs, t, i))
  }

  /** Appending a logic node with a fresh key only adds: earlier nodes and keys stay. */
  lemma AppendLogicGrows(g0: seq<Group>, g: Group)
    requires g.kind == Logic
    requires forall i :: 0 <= i < |g0| ==> g0[i].key < g.key
    ensures GrowsVertically(g0, g0 + [g]) && KeepsKeys(g0, g0 + [g]) && HasKey(g0 + [g], g.key)
  {
    HasKeyIff(g0, g.key);
    AppendKeepsLookups(g0, g, []);
  }

  /**
   * The nodes after `loadTemplateData` inserts diamond `d` for target `to`:
   * the diamond appended, then the reflow around the target. Existing nodes
   * only move vertically and every key stays.
   */
  function DiamondInserted(gs: seq<Group>, d: Group, to: Key): (r: seq<Group>)
    requires d.kind == Logic && HasKey(gs, to)
    requires forall i :: 0 <= i < |gs| ==> gs[i].key < d.key
    ensures |r| == |gs| + 1 && GrowsVertically(gs, r) && KeepsKeys(gs, r)
    ensures HasKey(r, d.key) && HasKey(r, to)
    ensures r[|gs|] == d || r[|gs|] == d.(y := d.y + ShiftY)
  {
    var g1 := gs + [d];
    AppendLogicGrows(gs, d);
    var t := FindIndex(g1, to);
    ShiftGrows(g1, t);
    GrowsVerticallyTrans(gs, g1, ShiftedAllForLoad(g1, t));
    ShiftedAllForLoad(g1, t)
  }

  /** The load reflow only moves nodes vertically, so every key stays. */
  lemma ShiftGrows(gs: seq<Group>, t: nat)
    requires t < |gs|
    ensures GrowsVertically(gs, ShiftedAllForLoad(gs, t)) && KeepsKeys(gs, ShiftedAllForLoad(gs, t))
  {
    SameKeysAgree(gs, ShiftedAllForLoad(gs, t));
  }

  /**
   * The reflow moves the target down by exactly 200. A node listed before the
   * target moves down 200 exactly when it sits at or below the target's old
   * y; a node listed after it, exactly when it sits at or below the target's
   * new y. Nothing moves up or sideways, and nothing else changes.
   */
  lemma ReflowMovesTargetDown(gs: seq<Group>, t: nat)
    requires t < |gs|
    ensures var r := ShiftedAllForLoad(gs, t);
      && r[t].y == gs[t].y + ShiftY
      && (forall i :: 0 <= i < t ==> (r[i].y == gs[i].y + ShiftY <==> gs[i].y >= gs[t].y))
      && (forall i :: t < i < |gs| ==> (r[i].y == gs[i].y + ShiftY <==> gs[i].y >= gs[t].y + ShiftY))
      && (forall i :: 0 <= i < |gs| ==> r[i] == gs[i] || r[i] == gs[i].(y := gs[i].y + ShiftY))
      && SameKeys(gs, r)
  {
  }

  // ------------------------------------------------------------ load bookkeeping

  /** Every id in `m` names a node of `gs`. */
  predicate MapsInto(m: map<string, Key>, gs: seq<Group>)
  {
    forall id :: id in m ==> HasKey(gs, m[id])
  }

  /** Every key of `g0` is still a key of `g1`. */
  ghost predicate KeepsKeys(g0: seq<Group>, g1: seq<Group>)
  {
    forall k :: HasKey(g0, k) ==> HasKey(g1, k)
  }

  /**
   * `g1` extends `g0` with logic nodes only, and the nodes of `g0` have at
   * most moved up or down.
   */
  predicate GrowsVertically(g0: seq<Group>, g1: seq<Group>)
  {
    && |g0| <= |g1|
    && (forall i :: 0 <= i < |g0| ==> g1[i] == g0[i].(y := g1[i].y))
    && (forall i :: |g0| <= i < |g1| ==> g1[i].kind == Logic)
  }

  lemma GrowsVerticallyTrans(g0: seq<Group>, g1: seq<Group>, g2: seq<Group>)
    requires GrowsVertically(g0, g1) && GrowsVertically(g1, g2)
    ensures GrowsVertically(g0, g2)
  {
    forall i | |g0| <= i < |g2| ensures g2[i].kind == Logic {
      if i < |g1| { assert g2[i] == g1[i].(y := g2[i].y); }
    }
  }

  // ------------------------------------------------------------ logic edit

  /**
   * `handleLogicEdit`: the step numbers of the nodes with a template that feed
   * node `k`, in edge order; names that parse to NaN are dropped.
   */
  function IncomingStepNumbers(gs: seq<Group>, cs: seq<Connection>, k: Key): (r: seq<int>)
    requires Linked(gs, cs)
    ensures |r| <= |cs|
    ensures (forall i :: 0 <= i < |cs| ==> cs[i].to != k) ==> r == []
  {
    if cs == [] then []
    else
      assert Linked(gs, cs[1..]) by { assert forall i :: 0 <= i < |cs| - 1 ==> cs[1..][i] == cs[i + 1]; }
      var rest := IncomingStepNumbers(gs, cs[1..], k);
      var f := At(gs, cs[0].from);
      if cs[0].to == k && f.templateId.Some? && f.templateId.value != "" && ParseStepNumber(f.name).Some?
      then [ParseStepNumber(f.name).value] + rest
      else rest
  }

  /** Edge `c` runs into `k` from a node with a template whose name carries step number `n`. */
  predicate Offers(gs: seq<Group>, c: Connection, k: Key, n: int)
    requires HasKey(gs, c.from)
  {
    c.to == k && At(gs, c.from).templateId.Some? && At(gs, c.from).templateId.value != ""
    && ParseStepNumber(At(gs, c.from).name) == Some(n)
  }

  /** A number is offered exactly when an edge into `k` comes from a node with a template named after it. */
  lemma {:induction false} IncomingStepNumbersSpec(gs: seq<Group>, cs: seq<Connection>, k: Key, n: int)
    requires Linked(gs, cs)
    ensures n in IncomingStepNumbers(gs, cs, k) <==> exists i :: 0 <= i < |cs| && Offers(gs, cs[i], k, n)
  {
    if cs != [] {
      var t := cs[1..];
      assert forall i :: 0 <= i < |t| ==> t[i] == cs[i + 1];
      IncomingStepNumbersSpec(gs, t, k, n);
      var rest := IncomingStepNumbers(gs, t, k);
      var f := At(gs, cs[0].from);
      var head := if cs[0].to == k && f.templateId.Some? && f.templateId.value != "" && ParseStepNumber(f.name).Some?
                  then [ParseStepNumber(f.name).value] else [];
      assert IncomingStepNumbers(gs, cs, k) == head + rest;
      assert n in head <==> Offers(gs, cs[0], k, n);
      if n in rest {
        var i :| 0 <= i < |t| && Offers(gs, t[i], k, n);
        assert Offers(gs, cs[i + 1], k, n);
      }
      if exists i :: 0 <= i < |cs| && Offers(gs, cs[i], k, n) {
        var i :| 0 <= i < |cs| && Offers(gs, cs[i], k, n);
        if i > 0 {
          assert Offers(gs, t[i - 1], k, n);
        }
      }
    }
  }

  /** The referenced numbers of `handleLogicModalSave` that no allowed step number prints as. */
  function InvalidReferences(words: seq<string>, allowed: seq<int>): (r: seq<string>)
    ensures forall w :: w in r <==> w in words && forall n :: n in allowed ==> IntToString(n) != w
  {
    if words == [] then []
    else
      var rest := InvalidReferences(words[1..], allowed);
      if forall n :: n in allowed ==> IntToString(n) != words[0] then [words[0]] + rest else rest
  }

  /**
   * An accepted logic condition mentions, as whole numbers, only step numbers
   * of the steps feeding the diamond: every such number reads back as one of
   * the allowed step numbers.
   */
  lemma AcceptedConditionUsesIncomingSteps(input: string, allowed: seq<int>)
    requires InvalidReferences(DigitWords(input), allowed) == []
    ensures forall w :: w in DigitWords(input) ==> exists n :: n in allowed && n >= 0 && ParseInt(w) == Some(n)
  {
    forall w | w in DigitWords(input) ensures exists n :: n in allowed && n >= 0 && ParseInt(w) == Some(n) {
      assert w !in InvalidReferences(DigitWords(input), allowed);
      var n :| n in allowed && IntToString(n) == w;
      ParseIntOfIntToString(n);
      assert IsDigit(w[0]);
    }
  }

  /** `handleLogicModalSave` on success: the edited node takes the condition and the label `Logic\n…`. */
  function WithCondition(gs: seq<Group>, k: Key, condition: string): (r: seq<Group>)
    ensures SameKeys(gs, r)
    ensures HasKey(gs, k) ==>
      HasKey(r, k) && At(r, k) == At(gs, k).(logicCondition := condition, text := "Logic\n" + condition)
    ensures forall j :: j != k && HasKey(gs, j) ==> HasKey(r, j) && At(r, j) == At(gs, j)
  {
    var r := seq(|gs|, i requires 0 <= i < |gs| =>
      if gs[i].key == k then gs[i].(logicCondition := condition, text := "Logic\n" + condition) else gs[i]);
    SameKeysAgree(gs, r);
    r
  }
}
