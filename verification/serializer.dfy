/**
 * `saveProcess`: the three validations, in their order, and the payload
 * handed to the persistence backend.
 */
module Serializer {
  import opened Wrappers
  import opened Graph

  const CustomLogic := "Custom Logic"
  const PreviousStepCompleted := "Previous Step Completed"

  datatype RecordBody =
    | LogicBody(condition: string)
    | StepBody(stepNumber: Option<int>, templateId: Option<string>,
               inProgressRequirement: string, customLogic: Option<string>)

  /** One entry of the payload's `steps`; `stepNumber` is `None` where `parseInt` gives NaN. */
  datatype StepRecord = StepRecord(id: string, x: real, y: real, text: string, body: RecordBody)

  datatype ConnectionRecord = ConnectionRecord(fromStep: string, toStep: string, toTemplateId: Option<string>)

  datatype Payload = Payload(
    processName: string,
    stepsToComplete: string,
    templateId: Option<string>,
    steps: seq<StepRecord>,
    connections: seq<ConnectionRecord>)

  datatype SaveError = MissingProcessName | MissingStepsToComplete | DisconnectedSteps

  lemma LinkedPrefix(gs: seq<Group>, cs: seq<Connection>, n: nat)
    requires Linked(gs, cs) && n <= |cs|
    ensures Linked(gs, cs[..n])
  {
    assert forall i :: 0 <= i < n ==> cs[..n][i] == cs[i];
  }

  /** Edge `c` leaves a logic node and enters a node named `name`. */
  predicate FeedsFromLogic(gs: seq<Group>, c: Connection, name: string)
  {
    HasKey(gs, c.from) && HasKey(gs, c.to) && At(gs, c.from).kind == Logic && At(gs, c.to).name == name
  }

  /**
   * The `logicTargets` map: target name to the condition of the logic node
   * feeding it; a later edge overwrites an earlier one.
   */
  function LogicTargets(gs: seq<Group>, cs: seq<Connection>): (r: map<string, string>)
    requires Linked(gs, cs)
    ensures forall name :: name in r ==> exists i :: 0 <= i < |gs| && gs[i].name == name
  {
    if cs == [] then map[]
    else
      LinkedPrefix(gs, cs, |cs| - 1);
      var m := LogicTargets(gs, cs[..|cs| - 1]);
      var c := cs[|cs| - 1];
      if At(gs, c.from).kind == Logic then
        assert gs[FindIndex(gs, c.to)].name == At(gs, c.to).name;
        m[At(gs, c.to).name := At(gs, c.from).logicCondition]
      else m
  }

  /** One step of the `forEach` that fills `logicTargets`. */
  lemma LogicTargetsLast(gs: seq<Group>, cs: seq<Connection>, name: string)
    requires Linked(gs, cs) && cs != []
    ensures Linked(gs, cs[..|cs| - 1])
    ensures var m := LogicTargets(gs, cs[..|cs| - 1]);
      var c := cs[|cs| - 1];
      && (name in LogicTargets(gs, cs) <==> name in m || FeedsFromLogic(gs, c, name))
      && (FeedsFromLogic(gs, c, name) ==> LogicTargets(gs, cs)[name] == At(gs, c.from).logicCondition)
      && (!FeedsFromLogic(gs, c, name) && name in m ==> LogicTargets(gs, cs)[name] == m[name])
  {
    LinkedPrefix(gs, cs, |cs| - 1);
  }

  /** A name is a key of `logicTargets` exactly when some logic node feeds a node of that name. */
  lemma {:induction false} LogicTargetsKeys(gs: seq<Group>, cs: seq<Connection>, name: string)
    requires Linked(gs, cs)
    ensures name in LogicTargets(gs, cs) <==> exists j :: 0 <= j < |cs| && FeedsFromLogic(gs, cs[j], name)
  {
    if cs != [] {
      var n := |cs| - 1;
      var p := cs[..n];
      LogicTargetsLast(gs, cs, name);
      LogicTargetsKeys(gs, p, name);
      assert forall j :: 0 <= j < n ==> p[j] == cs[j];
    }
  }

  /** Edge `j` is the last edge from a logic node into a node named `name`. */
  predicate IsLastFeed(gs: seq<Group>, cs: seq<Connection>, name: string, j: int)
  {
    && 0 <= j < |cs| && FeedsFromLogic(gs, cs[j], name)
    && forall k :: j < k < |cs| ==> !FeedsFromLogic(gs, cs[k], name)
  }

  /** There is at most one last logic edge into a name. */
  lemma IsLastFeedUnique(gs: seq<Group>, cs: seq<Connection>, name: string, j: int, k: int)
    requires IsLastFeed(gs, cs, name, j) && IsLastFeed(gs, cs, name, k)
    ensures j == k
  {
  }

  /** The value stored for a name is the condition of the LAST logic edge into it. */
  lemma {:induction false} LogicTargetsValue(gs: seq<Group>, cs: seq<Connection>, name: string)
    requires Linked(gs, cs) && name in LogicTargets(gs, cs)
    ensures exists j :: IsLastFeed(gs, cs, name, j) && LogicTargets(gs, cs)[name] == At(gs, cs[j].from).logicCondition
  {
    assert cs != [];
    var n := |cs| - 1;
    var p := cs[..n];
    LogicTargetsLast(gs, cs, name);
    if FeedsFromLogic(gs, cs[n], name) {
      assert IsLastFeed(gs, cs, name, n);
    } else {
      LogicTargetsValue(gs, p, name);
      var j :| IsLastFeed(gs, p, name, j) && LogicTargets(gs, p)[name] == At(gs, p[j].from).logicCondition;
      IsLastFeedExtends(gs, cs, name, j);
    }
  }

  /** A last feed among all edges but the final one stays last when the final edge does not feed. */
  lemma IsLastFeedExtends(gs: seq<Group>, cs: seq<Connection>, name: string, j: int)
    requires cs != [] && IsLastFeed(gs, cs[..|cs| - 1], name, j) && !FeedsFromLogic(gs, cs[|cs| - 1], name)
    ensures IsLastFeed(gs, cs, name, j) && cs[j] == cs[..|cs| - 1][j]
  {
    var p := cs[..|cs| - 1];
    forall k | j < k < |cs| ensures !FeedsFromLogic(gs, cs[k], name) {
      if k < |p| { assert p[k] == cs[k]; }
    }
  }

  /** The `steps` entry of one node. */
  function RecordOf(g: Group, targets: map<string, string>): (r: StepRecord)
    ensures r.id == g.name && r.x == g.x && r.y == g.y && r.text == g.text
    ensures g.kind == Logic <==> r.body == LogicBody(g.logicCondition)
    ensures g.kind == Step ==>
      r.body.StepBody? && r.body.stepNumber == ParseStepNumber(g.name) && r.body.templateId == g.templateId
    ensures g.kind == Step ==>
      (r.body.inProgressRequirement == CustomLogic <==> g.name in targets && targets[g.name] != "")
    ensures g.kind == Step ==>
      r.body.customLogic == if g.name in targets && targets[g.name] != "" then Some(targets[g.name]) else None
  {
    if g.kind == Logic then StepRecord(g.name, g.x, g.y, g.text, LogicBody(g.logicCondition))
    else
      var cond := if g.name in targets then targets[g.name] else "";
      StepRecord(g.name, g.x, g.y, g.text,
        StepBody(ParseStepNumber(g.name), g.templateId,
                 if cond != "" then CustomLogic else PreviousStepCompleted,
                 if cond != "" then Some(cond) else None))
  }

  /** Some edge starts or ends at a node named `name`; edges are matched by name, as in the source. */
  predicate IsEndpointName(gs: seq<Group>, cs: seq<Connection>, name: string)
    requires Linked(gs, cs)
  {
    exists j :: 0 <= j < |cs| && (At(gs, cs[j].from).name == name || At(gs, cs[j].to).name == name)
  }

  /** The validations and the payload of `saveProcess`. */
  function BuildPayload(processName: string, stepsToComplete: string, templateId: Option<string>,
                        gs: seq<Group>, cs: seq<Connection>): (r: Result<Payload, SaveError>)
    requires Linked(gs, cs)
    ensures r == Failure(MissingProcessName) <==> processName == ""
    ensures r == Failure(MissingStepsToComplete) <==> processName != "" && stepsToComplete == ""
    ensures r == Failure(DisconnectedSteps) <==>
      processName != "" && stepsToComplete != ""
      && exists i :: 0 <= i < |gs| && !IsEndpointName(gs, cs, gs[i].name)
    ensures r.Success? ==>
      && r.value.processName == processName && r.value.stepsToComplete == stepsToComplete
      && r.value.templateId == templateId
      && |r.value.steps| == |gs| && |r.value.connections| == |cs|
      && (forall i :: 0 <= i < |gs| ==>
            var s := r.value.steps[i];
            s.id == gs[i].name && s.x == gs[i].x && s.y == gs[i].y && s.text == gs[i].text
            && (s.body.LogicBody? <==> gs[i].kind == Logic)
            && (gs[i].kind == Logic ==> s.body == LogicBody(gs[i].logicCondition))
            && (gs[i].kind == Step ==>
                  s.body.stepNumber == ParseStepNumber(gs[i].name) && s.body.templateId == gs[i].templateId))
      && (forall i :: 0 <= i < |cs| ==>
            r.value.connections[i]
              == ConnectionRecord(At(gs, cs[i].from).name, At(gs, cs[i].to).name, At(gs, cs[i].to).templateId))
  {
    if processName == "" then Failure(MissingProcessName)
    else if stepsToComplete == "" then Failure(MissingStepsToComplete)
    else if exists i :: 0 <= i < |gs| && !IsEndpointName(gs, cs, gs[i].name) then Failure(DisconnectedSteps)
    else
      var targets := LogicTargets(gs, cs);
      var steps := seq(|gs|, i requires 0 <= i < |gs| => RecordOf(gs[i], targets));
      var conns := seq(|cs|, i requires 0 <= i < |cs| =>
        ConnectionRecord(At(gs, cs[i].from).name, At(gs, cs[i].to).name, At(gs, cs[i].to).templateId));
      Success(Payload(processName, stepsToComplete, templateId, steps, conns))
  }

  /** Each saved record is the `RecordOf` its node under the `logicTargets` map. */
  lemma SavedRecord(processName: string, stepsToComplete: string, templateId: Option<string>,
                    gs: seq<Group>, cs: seq<Connection>, i: nat)
    requires Linked(gs, cs)
    requires BuildPayload(processName, stepsToComplete, templateId, gs, cs).Success?
    requires i < |gs|
    ensures BuildPayload(processName, stepsToComplete, templateId, gs, cs).value.steps[i]
      == RecordOf(gs[i], LogicTargets(gs, cs))
  {
  }

  /**
   * In a saved payload a step is marked "Custom Logic" only when a logic node
   * with a non-empty condition feeds it, and then carries that condition; a
   * step no logic node feeds is "Previous Step Completed" with no condition.
   * Its step number is the one read back from its name.
   */
  lemma SavedStepRequirement(processName: string, stepsToComplete: string, templateId: Option<string>,
                             gs: seq<Group>, cs: seq<Connection>, i: nat)
    requires Linked(gs, cs)
    requires BuildPayload(processName, stepsToComplete, templateId, gs, cs).Success?
    requires i < |gs| && gs[i].kind == Step
    ensures var body := BuildPayload(processName, stepsToComplete, templateId, gs, cs).value.steps[i].body;
      && body.StepBody?
      && body.stepNumber == ParseStepNumber(gs[i].name)
      && body.templateId == gs[i].templateId
      && (body.inProgressRequirement == CustomLogic <==> body.customLogic.Some?)
      && (body.inProgressRequirement == CustomLogic ==>
            body.customLogic.value != ""
            && exists j :: 0 <= j < |cs| && FeedsFromLogic(gs, cs[j], gs[i].name)
                 && At(gs, cs[j].from).logicCondition == body.customLogic.value)
      && ((forall j :: 0 <= j < |cs| ==> !FeedsFromLogic(gs, cs[j], gs[i].name)) ==>
            body.inProgressRequirement == PreviousStepCompleted && body.customLogic == None)
  {
    SavedRecord(processName, stepsToComplete, templateId, gs, cs, i);
    LogicTargetsKeys(gs, cs, gs[i].name);
    if gs[i].name in LogicTargets(gs, cs) {
      LogicTargetsValue(gs, cs, gs[i].name);
    }
  }

  /**
   * Conversely, the last logic edge into a saved step decides its
   * requirement: a non-empty condition there makes the step "Custom Logic"
   * with that condition, an empty one "Previous Step Completed" with none.
   */
  lemma SavedStepFollowsLastFeed(processName: string, stepsToComplete: string, templateId: Option<string>,
                                 gs: seq<Group>, cs: seq<Connection>, i: nat, j: nat)
    requires Linked(gs, cs)
    requires BuildPayload(processName, stepsToComplete, templateId, gs, cs).Success?
    requires i < |gs| && gs[i].kind == Step && IsLastFeed(gs, cs, gs[i].name, j)
    ensures var body := BuildPayload(processName, stepsToComplete, templateId, gs, cs).value.steps[i].body;
      var cond := At(gs, cs[j].from).logicCondition;
      && body.inProgressRequirement == (if cond != "" then CustomLogic else PreviousStepCompleted)
      && body.customLogic == (if cond != "" then Some(cond) else None)
  {
    SavedRecord(processName, stepsToComplete, templateId, gs, cs, i);
    var name := gs[i].name;
    LogicTargetsKeys(gs, cs, name);
    LogicTargetsValue(gs, cs, name);
    var k :| IsLastFeed(gs, cs, name, k) && LogicTargets(gs, cs)[name] == At(gs, cs[k].from).logicCondition;
    IsLastFeedUnique(gs, cs, name, j, k);
  }

  /** A saved diagram has no isolated node: every node name is an end of some edge. */
  lemma SavedDiagramConnected(processName: string, stepsToComplete: string, templateId: Option<string>,
                              gs: seq<Group>, cs: seq<Connection>)
    requires Linked(gs, cs)
    requires BuildPayload(processName, stepsToComplete, templateId, gs, cs).Success?
    ensures processName != "" && stepsToComplete != ""
    ensures forall i :: 0 <= i < |gs| ==>
      exists j :: 0 <= j < |cs| && (At(gs, cs[j].from).name == gs[i].name || At(gs, cs[j].to).name == gs[i].name)
  {
  }
}
