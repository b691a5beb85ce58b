# Process configurator model

This project models the process-graph editor of the SimpleProcess app: the
`processConfigurator` Lightning web component, where a user builds a process
on a canvas. A process is made of step boxes, each bound to a document
template, and orange logic diamonds that hold a custom condition. The user
joins them with arrows, drags them on a 20-unit grid and deletes them. The
component also validates and saves the process, and loads a saved one back,
inserting a logic diamond in front of every step whose progress depends on
custom logic.

The model is written in Dafny.

- **`ProcessConfigurator` class** (`configurator.dfy`). It mirrors the
  component's state field by field: nodes, edges, both selections, the
  process form fields, the template catalogue and the logic-modal fields.
  Each event handler is a method that updates those fields, and states its
  new state as a change to the old one through `State()`. The loading
  methods state their new nodes, edges and counters through `Drawing()`:
  each is proved equal to a function of the `Loading` module. That module's
  lemmas then state what each function adds: which nodes and edges, with
  which ends, lines and colours, and how many.
- **Canvas objects.** Konva groups and arrows become `Group` and `Connection`
  records. Object identity becomes a fresh `key` or `line` number, handed out
  from two counters.
- **Class invariant.** `Valid` says that:
  - keys and line ids are unique;
  - every edge joins two nodes on the canvas;
  - each selection names something that exists.

  Every handler preserves it.
- **Pure rules** live in their own modules:
  - `Graph`: the node naming scheme and edge routing;
  - `Layout`: grid snap, bounding box and centering;
  - `Serializer`: the save validations and the payload;
  - `Editing`: filters, the load-time reflow and the logic-condition check;
  - `Loading`: what `loadTemplateData` draws, step by step and connection by connection;
  - `JsText`: the JavaScript string functions they rely on.

  These are modelled as functions, with lemmas relating them.

Behaviour worth noting:

- **Clicking a connection** does not clear the node selection.
- **`renumberSteps`** renames every node, logic diamonds included. It runs
  after any node is deleted, not only after a step is deleted.
- **"Custom Logic" on save** applies to a step only when the last logic edge
  into it has a non-empty condition. It is not enough for some logic node to
  point at the step.
- **The load-time reflow** re-reads the target's `y` while it moves nodes,
  and the target itself always moves. Nodes listed before the target are
  compared with its old `y`; nodes listed after it are compared with its
  new `y`.

## Model

All source paths are under `force-app/main/default/lwc/processConfigurator/`.

| member | source | states |
|---|---|---|
| JsText.ParseInt | force-app/main/default/lwc/processConfigurator/processConfigurator.js:339 | `parseInt` yields a number only for text that holds a digit |
| JsText.IntToString | force-app/main/default/lwc/processConfigurator/processConfigurator.js:846 | `String` of an integer is never empty and starts with a minus sign exactly for a negative number |
| JsText.ParseIntOfIntToString | force-app/main/default/lwc/processConfigurator/processConfigurator.js:845-850 | `parseInt` reads back every integer that `String` prints, so a number the user types and an allowed step number compare as the same text |
| JsText.ParseIntOfNonNumeric | force-app/main/default/lwc/processConfigurator/processConfigurator.js:338-340 | a string starting with anything other than white space, a sign or a digit parses to NaN |
| JsText.BeforeSeparatorOf | force-app/main/default/lwc/processConfigurator/processConfigurator.js:339 | `split('__')[0]` returns exactly the part before the separator when that part has no underscore |
| JsText.Trim | force-app/main/default/lwc/processConfigurator/processConfigurator.js:845 | the trimmed condition neither starts nor ends with white space, and it is a contiguous piece of the input with only white space cut from either side |
| JsText.DigitWords | force-app/main/default/lwc/processConfigurator/processConfigurator.js:849 | every whole-number match of `/\b\d+\b/g` is a non-empty run of digits |
| JsText.DigitRuns | force-app/main/default/lwc/processConfigurator/processConfigurator.js:187-189 | every match of `/\d+/g` in `extractStepIdsFromLogic` is a non-empty run of digits |
| Graph.NodeDims | force-app/main/default/lwc/processConfigurator/processConfigurator.js:191-194 | every node is 140 wide; a diamond is as tall as it is wide and a step box is half as tall |
| Graph.Route | force-app/main/default/lwc/processConfigurator/processConfigurator.js:200-215 | each arrow end sits at the horizontal centre of its node; the tail is on the source's top or bottom side and the head on the target's top or bottom side |
| Graph.RouteFollowsFlow | force-app/main/default/lwc/processConfigurator/processConfigurator.js:207-215 | between boxes that do not overlap vertically, the arrow always runs from the source's side facing the target to the target's side facing the source: with the target below, from the source's bottom to the target's top; with the target above, from the source's top to the target's bottom |
| Graph.RouteTranslates | force-app/main/default/lwc/processConfigurator/processConfigurator.js:903-907 | moving both ends by one offset moves the drawn arrow by that offset |
| Graph.SameKeysLinked | force-app/main/default/lwc/processConfigurator/processConfigurator.js:244 | moving, renaming or relabelling nodes keeps every edge attached to its two nodes |
| Graph.AppendKeepsLookups | force-app/main/default/lwc/processConfigurator/processConfigurator.js:398 | pushing a node with a fresh key keeps every existing node reachable and unchanged, and makes the new node reachable by its key |
| Graph.ParseStepNumber | force-app/main/default/lwc/processConfigurator/processConfigurator.js:338-340 | a name reads as a step number only when it holds a digit |
| Graph.ParseStepNumberOfStepName | force-app/main/default/lwc/processConfigurator/processConfigurator.js:338-350 | the number put into a `step-N__template-T` name is the one `addStep` and `saveProcess` read back from it, for any template text |
| Graph.ParseStepNumberOfLogicName | force-app/main/default/lwc/processConfigurator/processConfigurator.js:338-340 | a `logic-…` name reads back as NaN, so logic nodes never use up a step number |
| Graph.NumbersHas | force-app/main/default/lwc/processConfigurator/processConfigurator.js:340 | the NaN filter keeps exactly the numbers that some entry holds |
| Graph.UsedStepNumbersSpec | force-app/main/default/lwc/processConfigurator/processConfigurator.js:338-341 | a number is in use exactly when some node name reads back as it |
| Graph.LeastUnused | force-app/main/default/lwc/processConfigurator/processConfigurator.js:343-346 | the result is a positive integer not in the list, and every smaller positive integer is in it |
| Graph.NextStepNumber | force-app/main/default/lwc/processConfigurator/processConfigurator.js:338-346 | the number `addStep` picks is unused on the canvas, and every smaller positive number is in use |
| Graph.SmallestUnused | force-app/main/default/lwc/processConfigurator/processConfigurator.js:343-346 | the loop ends on the smallest positive integer not in use: it is unused and every smaller positive integer is used |
| Graph.Renumbered | force-app/main/default/lwc/processConfigurator/processConfigurator.js:611-627 | renumbering keeps the length and changes only each node's name and label |
| Graph.RenumberedIsDense | force-app/main/default/lwc/processConfigurator/processConfigurator.js:611-627 | after renumbering, node i reads back as step i + 1 and the numbers in use are exactly 1..n; keys, kinds, positions, templates and conditions are unchanged |
| Graph.DenseNumbers | force-app/main/default/lwc/processConfigurator/processConfigurator.js:338-341 | names reading 1, 2, …, n in order leave exactly 1..n in use |
| Graph.NextNumberAfterRenumber | force-app/main/default/lwc/processConfigurator/processConfigurator.js:343-346 | after a renumber, the next step added is numbered one past the number of nodes |
| Layout.Snap | force-app/main/default/lwc/processConfigurator/processConfigurator.js:323-325 | a dragged coordinate lands on a multiple of 20, within half a grid cell of where it was dropped |
| Layout.SnapIdempotent | force-app/main/default/lwc/processConfigurator/processConfigurator.js:402-405 | snapping a coordinate that is already on the grid leaves it where it is |
| Layout.SeqMinIsLeast | force-app/main/default/lwc/processConfigurator/processConfigurator.js:878-879 | the running `Math.min` is below every value and equals one of them |
| Layout.SeqMaxIsGreatest | force-app/main/default/lwc/processConfigurator/processConfigurator.js:880-881 | the running `Math.max` is above every value and equals one of them |
| Layout.BoundsPrefixStep | force-app/main/default/lwc/processConfigurator/processConfigurator.js:876-882 | one more turn of the `forEach` folds the next node into the four running extremes |
| Layout.DiagramBounds | force-app/main/default/lwc/processConfigurator/processConfigurator.js:873-886 | no nodes give the zero box; with a node the box is at least one node wide and tall, so centering goes ahead |
| Layout.DiagramBoundsTight | force-app/main/default/lwc/processConfigurator/processConfigurator.js:873-886 | the box holds every node's rectangle, and each of its four sides touches one of them |
| Layout.DiagramBoundsTranslate | force-app/main/default/lwc/processConfigurator/processConfigurator.js:904 | moving every node by one offset moves the box by that offset and keeps its size |
| Layout.CenterTarget | force-app/main/default/lwc/processConfigurator/processConfigurator.js:896-898 | the centred offset is at least the padding, leaves at least as much room before the diagram as after it (the diagram may overflow the far edge), and is either the padding or exactly centred |
| Layout.Centered | force-app/main/default/lwc/processConfigurator/processConfigurator.js:889-910 | centering keeps every node in place in the list and changes only its position |
| Layout.CenteredPlacement | force-app/main/default/lwc/processConfigurator/processConfigurator.js:896-904 | centering is one common offset; afterwards the box's top-left corner is at the centred target, at least `padding` from the stage's top and left edges |
| Layout.CenteredIdempotent | force-app/main/default/lwc/processConfigurator/processConfigurator.js:889-904 | centering an already centred diagram moves nothing |
| Serializer.LogicTargets | force-app/main/default/lwc/processConfigurator/processConfigurator.js:470-476 | every name in the `logicTargets` map is the name of a node on the canvas |
| Serializer.LogicTargetsLast | force-app/main/default/lwc/processConfigurator/processConfigurator.js:472-475 | each edge out of a logic node sets its target name's entry to that node's condition, overwriting earlier entries; other edges change nothing |
| Serializer.LogicTargetsKeys | force-app/main/default/lwc/processConfigurator/processConfigurator.js:470-476 | a name has an entry exactly when some logic node has an edge into a node of that name |
| Serializer.LogicTargetsValue | force-app/main/default/lwc/processConfigurator/processConfigurator.js:472-476 | the stored condition is the one on the last logic edge into that name |
| Serializer.RecordOf | force-app/main/default/lwc/processConfigurator/processConfigurator.js:478-509 | a record keeps the node's name, position and label; it has the logic body exactly for a logic node; a step's record has its parsed number and template, and is "Custom Logic" exactly when its name maps to a non-empty condition, which it then carries |
| Serializer.BuildPayload | force-app/main/default/lwc/processConfigurator/processConfigurator.js:458-540 | the three failures, in order and each as an iff: no process name, then no steps-to-complete, then a node that is the end of no edge. On success, one record per node with its id, position and label; a logic node's record carries its condition, a step's its parsed number and template; one record per edge naming both ends and the target's template |
| Serializer.SavedRecord | force-app/main/default/lwc/processConfigurator/processConfigurator.js:478-509 | each saved record is the record of its node under the `logicTargets` map |
| Serializer.SavedStepRequirement | force-app/main/default/lwc/processConfigurator/processConfigurator.js:494-507 | a saved step has the number read back from its name and its own template. It is "Custom Logic" exactly when it carries a condition; that condition is non-empty and comes from a logic edge into it. With no logic edge into it, it is "Previous Step Completed" with no condition |
| Serializer.SavedStepFollowsLastFeed | force-app/main/default/lwc/processConfigurator/processConfigurator.js:470-507 | the last logic edge into a saved step decides it: a non-empty condition there makes it "Custom Logic" with that condition, an empty one "Previous Step Completed" with none |
| Serializer.SavedDiagramConnected | force-app/main/default/lwc/processConfigurator/processConfigurator.js:519-531 | every node of a saved diagram is the end of some edge |
| Editing.FindStep | force-app/main/default/lwc/processConfigurator/processConfigurator.js:136 | the result is the first loaded step with that id, or no loaded step has that id |
| Editing.IdsOfSpec | force-app/main/default/lwc/processConfigurator/processConfigurator.js:124-127 | `stepMap` covers exactly the ids of the loaded steps |
| Editing.GatedTargetsNext | force-app/main/default/lwc/processConfigurator/processConfigurator.js:139-154 | connection n adds its target to the diamond cache exactly when the target is gated by custom logic |
| Editing.NewStep | force-app/main/default/lwc/processConfigurator/processConfigurator.js:337-371 | a new step gets the given key and no condition; without loaded data its name reads back as its number, it carries the selected template and it sits at x 50, y 10 + 100 per earlier number; with loaded data it is the loaded step's node |
| Editing.LoadedStep | force-app/main/default/lwc/processConfigurator/processConfigurator.js:354-371 | a loaded step's node takes its id as name, its template, label and saved position; a missing or zero coordinate falls back to the new-step place |
| Editing.NumberedLogicCount | force-app/main/default/lwc/processConfigurator/processConfigurator.js:273-275 | the count of numbered diamonds is at most the number of nodes, and zero on a canvas of steps only |
| Editing.NewLogic | force-app/main/default/lwc/processConfigurator/processConfigurator.js:272-300 | a new diamond gets the key, no template and the given condition (else none). A given id, label and non-zero coordinates are used as is. Otherwise the name is `logic-N`, the label is the condition or else `Logic N`, and the place is x 200 and y 100 + (N-1)·80 |
| Editing.DiamondSpec | force-app/main/default/lwc/processConfigurator/processConfigurator.js:143-153 | the load-time diamond is named and conditioned as asked, labelled with the condition, horizontally centred under the source node and 40 below it |
| Editing.ShiftedForLoad | force-app/main/default/lwc/processConfigurator/processConfigurator.js:158-162 | the reflow moves a node down by 200 or leaves it, and changes nothing but its y |
| Editing.ShiftedAllForLoad | force-app/main/default/lwc/processConfigurator/processConfigurator.js:158-162 | the reflow keeps every node in its place and changes at most its y |
| Editing.ReflowMovesTargetDown | force-app/main/default/lwc/processConfigurator/processConfigurator.js:157-162 | the target moves down exactly 200. A node before it moves exactly when it is at or below the target's old y; a node after it moves exactly when it is at or below the target's new y. Every node either stays or moves down 200 |
| Editing.ShiftGrows | force-app/main/default/lwc/processConfigurator/processConfigurator.js:158-162 | the reflow moves nodes only vertically and keeps every key |
| Editing.AppendLogicGrows | force-app/main/default/lwc/processConfigurator/processConfigurator.js:147-154 | appending a diamond under a fresh key keeps every earlier node and key, and the diamond is reachable |
| Editing.DiamondInserted | force-app/main/default/lwc/processConfigurator/processConfigurator.js:142-162 | inserting a diamond adds exactly one node; earlier nodes move only vertically and keep their keys; the diamond and the target are both on the canvas |
| Editing.ReroutedKeepsEdges | force-app/main/default/lwc/processConfigurator/processConfigurator.js:247-267 | redrawing changes only the arrow points, never the ends, line or colour; redrawing twice from the same positions is the same as once |
| Editing.ReroutedTranslates | force-app/main/default/lwc/processConfigurator/processConfigurator.js:903-907 | after every node moves by one offset, every redrawn arrow moves by that offset |
| Editing.CenterStateIdempotent | force-app/main/default/lwc/processConfigurator/processConfigurator.js:889-910 | the centred, redrawn diagram is a fixed point: centering again moves nothing and redraws the same arrows |
| Editing.ClickEdgeKeepsNoDuplicates | force-app/main/default/lwc/processConfigurator/processConfigurator.js:650-706 | after a joining click the edge exists; the edge set gains exactly that edge; no duplicate edge is ever created |
| Editing.MovedTo | force-app/main/default/lwc/processConfigurator/processConfigurator.js:323-325 | node `k` takes the new x and y and keeps everything else; every other node is unchanged; every node stays in its place in the list |
| Editing.StepDragAgreesWithRecompute | force-app/main/default/lwc/processConfigurator/processConfigurator.js:407-426 | dragging a step leaves edges away from it untouched; an edge between two steps is drawn just as `recomputeConnections` draws it |
| Editing.ConsistentSameKeys | force-app/main/default/lwc/processConfigurator/processConfigurator.js:322-328 | moving, renaming or relabelling nodes keeps the editor invariant |
| Editing.ConsistentAddNode | force-app/main/default/lwc/processConfigurator/processConfigurator.js:398 | adding a node under a fresh key keeps the invariant, keeps every earlier lookup and makes the new node reachable |
| Editing.ConsistentAddEdge | force-app/main/default/lwc/processConfigurator/processConfigurator.js:244 | adding an edge between two existing nodes under a fresh line keeps the invariant |
| Editing.ConsistentSameEnds | force-app/main/default/lwc/processConfigurator/processConfigurator.js:265 | changing arrow points keeps the invariant |
| Editing.WithoutLine | force-app/main/default/lwc/processConfigurator/processConfigurator.js:716 | exactly the edges on other lines remain |
| Editing.WithoutIncident | force-app/main/default/lwc/processConfigurator/processConfigurator.js:722-726 | exactly the edges not touching the node remain |
| Editing.WithoutKey | force-app/main/default/lwc/processConfigurator/processConfigurator.js:729 | exactly the other nodes remain |
| Editing.WithoutKeyKeepsOrder | force-app/main/default/lwc/processConfigurator/processConfigurator.js:729 | with distinct keys the filter cuts exactly the node with that key out of the list and keeps the others in order; an absent key removes nothing |
| Editing.WithoutLineRemovesOne | force-app/main/default/lwc/processConfigurator/processConfigurator.js:714-717 | deleting a line removes exactly one edge when the line exists and none otherwise; the line is gone and lines stay distinct |
| Editing.DeleteNodeKeepsLinks | force-app/main/default/lwc/processConfigurator/processConfigurator.js:719-730 | after a node delete every remaining edge joins two remaining nodes, and exactly the other nodes remain |
| Editing.ConsistentDeleteLine | force-app/main/default/lwc/processConfigurator/processConfigurator.js:714-718 | deleting the selected edge keeps the invariant, clears the edge selection and removes exactly one edge |
| Editing.ConsistentDeleteNode | force-app/main/default/lwc/processConfigurator/processConfigurator.js:719-731 | deleting the selected node with its edges keeps the invariant, clears the selection and removes exactly that node |
| Editing.WithoutKeyDropsOne | force-app/main/default/lwc/processConfigurator/processConfigurator.js:729 | with unique keys the node filter removes exactly one node when the key exists and none otherwise |
| Editing.IncomingStepNumbers | force-app/main/default/lwc/processConfigurator/processConfigurator.js:439-446 | no more numbers than edges, and none when no edge runs into the diamond |
| Editing.IncomingStepNumbersSpec | force-app/main/default/lwc/processConfigurator/processConfigurator.js:439-446 | a number is offered exactly when an edge into the diamond comes from a node with a template whose name reads back as that number |
| Editing.InvalidReferences | force-app/main/default/lwc/processConfigurator/processConfigurator.js:846-850 | a referenced number is invalid exactly when no allowed step number prints as it |
| Editing.AcceptedConditionUsesIncomingSteps | force-app/main/default/lwc/processConfigurator/processConfigurator.js:844-857 | an accepted condition mentions as whole numbers only the numbers of steps feeding the diamond |
| Editing.WithCondition | force-app/main/default/lwc/processConfigurator/processConfigurator.js:857-862 | diamond `k` takes the condition and the label `Logic` followed by a newline and the condition; every other node is unchanged; every node stays in its place in the list |
| Loading.WithStep | force-app/main/default/lwc/processConfigurator/processConfigurator.js:124-126 | loading one step appends exactly one node under the next key, keeps every earlier node and edge, and advances only the key counter |
| Loading.LoadedSteps | force-app/main/default/lwc/processConfigurator/processConfigurator.js:124-127 | the step loop appends one node per loaded step after the existing ones, under consecutive keys, and leaves the edges alone |
| Loading.StepExtends | force-app/main/default/lwc/processConfigurator/processConfigurator.js:124-127 | one more loaded step keeps every node already there and gives the new one the next consecutive key |
| Loading.LoadedStepsPlaces | force-app/main/default/lwc/processConfigurator/processConfigurator.js:124-127 | loaded step j becomes node j after the existing ones, under key `nextKey + j`, built from its data with the step number that was free when it was added |
| Loading.StepMapOf | force-app/main/default/lwc/processConfigurator/processConfigurator.js:121-127 | `stepMap` covers exactly the loaded ids, each sent to one of the keys the step loop handed out |
| Loading.StepsLoadedNext | force-app/main/default/lwc/processConfigurator/processConfigurator.js:124-127 | one more turn of the step loop appends that step to the drawing so far |
| Loading.StepMapNext | force-app/main/default/lwc/processConfigurator/processConfigurator.js:126 | one more turn of the step loop sends that step's id to the key it was given |
| Loading.StepMapLoaded | force-app/main/default/lwc/processConfigurator/processConfigurator.js:121-127 | every id in `stepMap` names a node of the loaded drawing |
| Loading.WithArrow | force-app/main/default/lwc/processConfigurator/processConfigurator.js:196-245 | `drawArrow` appends exactly one edge with the given ends and colour under the next line, drawn from the current positions; nodes and keys stay |
| Loading.ArrowAppends | force-app/main/default/lwc/processConfigurator/processConfigurator.js:196-245 | `drawArrow` keeps every earlier edge and the appended edge has the given ends, line and colour |
| Loading.WithLogic | force-app/main/default/lwc/processConfigurator/processConfigurator.js:317 | `addLogicStep` appends one node under the next key; earlier nodes and edges stay |
| Loading.LogicNode | force-app/main/default/lwc/processConfigurator/processConfigurator.js:272-300 | the diamond `addLogicStep` makes takes the next key and the asked condition (else none). The asked id, label and non-zero coordinates are used as is. Otherwise it gets `logic-N`, the condition or `Logic N` as label, and x 200, y 100 + (N-1)·80, with N one past the numbered logic nodes |
| Loading.Reflowed | force-app/main/default/lwc/processConfigurator/processConfigurator.js:156-162 | the load reflow moves nodes only vertically, keeps every key, and leaves edges and counters alone |
| Loading.DiamondCached | force-app/main/default/lwc/processConfigurator/processConfigurator.js:140-166 | the diamond of a gated target is found in or added to the cache, so the target is cached afterwards; earlier nodes only move vertically |
| Loading.NewDiamond | force-app/main/default/lwc/processConfigurator/processConfigurator.js:142-166 | a new diamond is cached for its target under the next key; earlier nodes only move vertically and keep their keys |
| Loading.NewDiamondShape | force-app/main/default/lwc/processConfigurator/processConfigurator.js:142-166 | a new diamond is the one node added, named `logic-for-` and the target, with the target's condition as condition and label. It sits centred under the source node and 40 below it, or 200 lower if the reflow moved it; a computed coordinate of 0 falls back to `addLogicStep`'s default place. One green edge from it into the target is appended under the next line |
| Loading.ThroughDiamond | force-app/main/default/lwc/processConfigurator/processConfigurator.js:138-169 | a connection into a gated target leaves its target cached; earlier nodes only move vertically and keep their keys |
| Loading.ConnectionLoaded | force-app/main/default/lwc/processConfigurator/processConfigurator.js:131-174 | one turn of the connection loop keeps `stepMap` and the cache pointing at nodes, and moves earlier nodes only vertically |
| Loading.SkippedConnection | force-app/main/default/lwc/processConfigurator/processConfigurator.js:132-134 | a connection with an end that was not loaded changes nothing |
| Loading.PlainConnection | force-app/main/default/lwc/processConfigurator/processConfigurator.js:170-173 | a connection into a step without custom logic appends exactly one black edge from the source's node to the target's node under the next line; nothing else changes |
| Loading.GatedConnection | force-app/main/default/lwc/processConfigurator/processConfigurator.js:138-139 | a connection into a gated target goes through that target's diamond |
| Loading.CachedDiamondConnection | force-app/main/default/lwc/processConfigurator/processConfigurator.js:140-169 | when the target's diamond exists, exactly one green edge from the source's node into that diamond is appended; nodes and cache stay |
| Loading.NewDiamondConnection | force-app/main/default/lwc/processConfigurator/processConfigurator.js:140-169 | when the target has no diamond yet, one diamond for it with the target's custom logic is appended under the next key, placed under the source node, and cached; then a green edge from the diamond into the target and a green edge from the source into the diamond, in that order |
| Loading.ThroughNewDiamond | force-app/main/default/lwc/processConfigurator/processConfigurator.js:142-169 | through a new diamond, the diamond is the one node added, under the next key, placed under the source node, and cached for its target; two lines are used |
| Loading.ThroughNewDiamondEdges | force-app/main/default/lwc/processConfigurator/processConfigurator.js:164-169 | through a new diamond, exactly two edges are appended: diamond to target, then source to diamond, both green |
| Loading.ConnectionCounts | force-app/main/default/lwc/processConfigurator/processConfigurator.js:131-174 | one turn adds one edge when both ends were loaded, plus a diamond and its edge when a gated target has none yet; the cache gains the gated target |
| Loading.CountsNext | force-app/main/default/lwc/processConfigurator/processConfigurator.js:131-174 | the loop invariant: after j connections the cache holds exactly the gated targets so far, with one node each, and there is one edge per resolved connection plus one per diamond |
| Loading.ConnectionsLoaded | force-app/main/default/lwc/processConfigurator/processConfigurator.js:131-174 | after j turns from an empty cache the loop invariant holds, and earlier nodes have only moved vertically |
| Loading.Loaded | force-app/main/default/lwc/processConfigurator/processConfigurator.js:121-174 | after the step and connection loops: one node per loaded step, one diamond per distinct gated target, one edge per resolved connection plus one per diamond; the cache holds exactly the gated targets |
| Loading.CenteredOnStage | force-app/main/default/lwc/processConfigurator/processConfigurator.js:889-910 | the nodes are centred on the stage with the default padding of 24 (`Layout.CenteredPlacement` gives where they land) and, when there are nodes, every edge is redrawn from the new positions; only node positions and arrow points change |
| Loading.LoadedAndCentered | force-app/main/default/lwc/processConfigurator/processConfigurator.js:121-178 | the loaded drawing is then centred with the default padding: the same nodes and edges as after the loops, with only positions and arrow points changed |
| Configurator.ProcessConfigurator.constructor | force-app/main/default/lwc/processConfigurator/processConfigurator.js:17-29 | an empty canvas with nothing selected, empty form fields and no template |
| Configurator.ProcessConfigurator.ReceiveTemplates | force-app/main/default/lwc/processConfigurator/processConfigurator.js:42-55 | the template list is the wired data, or empty on an error; nothing else changes |
| Configurator.ProcessConfigurator.HandleTemplateChange | force-app/main/default/lwc/processConfigurator/processConfigurator.js:582-584 | only the selected template changes |
| Configurator.ProcessConfigurator.HandleProcessNameChange | force-app/main/default/lwc/processConfigurator/processConfigurator.js:586-588 | only the process name changes |
| Configurator.ProcessConfigurator.HandleStepsToCompleteChange | force-app/main/default/lwc/processConfigurator/processConfigurator.js:590-592 | only steps-to-complete changes |
| Configurator.ProcessConfigurator.AddStep | force-app/main/default/lwc/processConfigurator/processConfigurator.js:337-432 | appends one step under a fresh key, numbered with the smallest positive number not in use; only the nodes and the key counter change |
| Configurator.ProcessConfigurator.AddLogicStep | force-app/main/default/lwc/processConfigurator/processConfigurator.js:272-332 | appends the diamond `addLogicStep` makes under a fresh key, numbered one past the numbered logic nodes; every earlier node is kept |
| Configurator.ProcessConfigurator.PushNode | force-app/main/default/lwc/processConfigurator/processConfigurator.js:317 | the node is pushed at the end under the next key, which advances; every node found before is found unchanged, and the new one under its key |
| Configurator.ProcessConfigurator.HandleAddStep | force-app/main/default/lwc/processConfigurator/processConfigurator.js:594-600 | with no template selected nothing changes. Otherwise it has the effect of `addStep`: one step with that template is appended, and its name reads back as the smallest number not in use before |
| Configurator.ProcessConfigurator.HandleAddLogic | force-app/main/default/lwc/processConfigurator/processConfigurator.js:602-608 | one default diamond is appended under a fresh key |
| Configurator.ProcessConfigurator.DrawArrow | force-app/main/default/lwc/processConfigurator/processConfigurator.js:196-245 | one edge is appended, drawn from both nodes' current positions and sizes, under a fresh line |
| Configurator.ProcessConfigurator.RecomputeConnections | force-app/main/default/lwc/processConfigurator/processConfigurator.js:247-267 | every edge is redrawn from the current positions; nothing else changes |
| Configurator.ProcessConfigurator.ClickConnection | force-app/main/default/lwc/processConfigurator/processConfigurator.js:228-241 | clicking the selected edge deselects it; clicking another edge selects it; the node selection stays |
| Configurator.ProcessConfigurator.HandleGroupClick | force-app/main/default/lwc/processConfigurator/processConfigurator.js:629-711 | the edge selection is cleared. The first click selects the node and a second click deselects it. A click on another node joins the two unless an edge already runs that way, then clears the selection. Never creates a duplicate edge |
| Configurator.ProcessConfigurator.JoinNodes | force-app/main/default/lwc/processConfigurator/processConfigurator.js:650-706 | a black edge drawn as between two steps is appended only when no edge runs that way |
| Configurator.ProcessConfigurator.DragNode | force-app/main/default/lwc/processConfigurator/processConfigurator.js:402-429 | the node moves to the snapped point and every other node stays (through `MovedTo`). A step redraws only its own edges as between steps; a diamond redraws every edge (lines 322-328). Every edge stays attached |
| Configurator.ProcessConfigurator.RedrawAround | force-app/main/default/lwc/processConfigurator/processConfigurator.js:407-426 | only the edges touching the node are redrawn |
| Configurator.ProcessConfigurator.RenumberSteps | force-app/main/default/lwc/processConfigurator/processConfigurator.js:611-627 | every node is renamed and relabelled after its position; nothing else changes |
| Configurator.ProcessConfigurator.HandleDeleteConnection | force-app/main/default/lwc/processConfigurator/processConfigurator.js:713-736 | a selected edge is removed, exactly one. Failing that, a selected node is removed with its edges and the rest renumbered, exactly one node fewer. With nothing selected nothing changes |
| Configurator.ProcessConfigurator.HandleLogicEdit | force-app/main/default/lwc/processConfigurator/processConfigurator.js:435-451 | opens the modal on the diamond with its condition and the numbers of the steps feeding it |
| Configurator.ProcessConfigurator.HandleLogicConditionChange | force-app/main/default/lwc/processConfigurator/processConfigurator.js:834-836 | only the condition input changes |
| Configurator.ProcessConfigurator.HandleLogicModalCancel | force-app/main/default/lwc/processConfigurator/processConfigurator.js:838-842 | the modal closes and its input is cleared |
| Configurator.ProcessConfigurator.HandleLogicModalSave | force-app/main/default/lwc/processConfigurator/processConfigurator.js:844-870 | reports the referenced numbers that are not allowed. If any, nothing changes. Otherwise the open diamond takes the trimmed condition and label, and the modal closes |
| Configurator.ProcessConfigurator.AcceptCondition | force-app/main/default/lwc/processConfigurator/processConfigurator.js:857-869 | the diamond takes the condition and the label `Logic` followed by a newline and the condition; every other node and the rest of the state are unchanged, except that the modal closes |
| Configurator.ProcessConfigurator.SaveProcess | force-app/main/default/lwc/processConfigurator/processConfigurator.js:458-553 | returns the validation outcome and payload. Only a successful save that the backend answers changes the state, and only the saved template id |
| Configurator.ProcessConfigurator.ComputeDiagramBounds | force-app/main/default/lwc/processConfigurator/processConfigurator.js:873-886 | the loop computes the tight bounding box of the nodes, or the zero box for none |
| Configurator.ProcessConfigurator.CenterDiagramOnStage | force-app/main/default/lwc/processConfigurator/processConfigurator.js:889-910 | the nodes are centred with the padding floor and every edge redrawn; an empty canvas is left alone |
| Configurator.ProcessConfigurator.TranslateAll | force-app/main/default/lwc/processConfigurator/processConfigurator.js:904 | every node moves by the same offset; nothing else changes |
| Configurator.ProcessConfigurator.ShiftForLoad | force-app/main/default/lwc/processConfigurator/processConfigurator.js:156-162 | the loop performs the load reflow around the target, as `Loading.Reflowed` states it: nodes only move vertically and every key stays |
| Configurator.ProcessConfigurator.LoadStep | force-app/main/default/lwc/processConfigurator/processConfigurator.js:124-127 | the drawing gains exactly the node `addStep` makes for the loaded step, under the next key and with the step number free before (its saved position, or the default place for a missing or zero coordinate), and its id is mapped to that key; nothing else changes |
| Configurator.ProcessConfigurator.LoadSteps | force-app/main/default/lwc/processConfigurator/processConfigurator.js:121-127 | the drawing is the step loop's result `Loading.LoadedSteps`, and the map is `Loading.StepMapOf`: one node per loaded step in order, each id sent to its node |
| Configurator.ProcessConfigurator.InsertDiamond | force-app/main/default/lwc/processConfigurator/processConfigurator.js:142-166 | the diamond `addLogicStep` makes is appended under the next key, the reflow runs around the target, and one green edge joins the diamond to the target under the next line |
| Configurator.ProcessConfigurator.ReflowAndJoin | force-app/main/default/lwc/processConfigurator/processConfigurator.js:156-165 | the reflow around the target, then one green edge from the diamond into it |
| Configurator.ProcessConfigurator.DiamondFor | force-app/main/default/lwc/processConfigurator/processConfigurator.js:140-166 | the drawing and cache become `Loading.DiamondCached`: the cached diamond of the target, or a new one placed under the source and cached |
| Configurator.ProcessConfigurator.JoinThroughDiamond | force-app/main/default/lwc/processConfigurator/processConfigurator.js:138-169 | the drawing and cache become `Loading.ThroughDiamond`: a green edge from the source into the target's diamond, with the diamond and its edge created the first time |
| Configurator.ProcessConfigurator.LoadConnection | force-app/main/default/lwc/processConfigurator/processConfigurator.js:131-174 | the drawing and cache become `Loading.ConnectionLoaded` of the connection: skipped, one black edge, or green edges through the target's diamond |
| Configurator.ProcessConfigurator.LoadConnections | force-app/main/default/lwc/processConfigurator/processConfigurator.js:129-174 | the drawing and cache become `Loading.ConnectionsLoaded` over all connections from an empty cache |
| Configurator.ProcessConfigurator.DrawTemplate | force-app/main/default/lwc/processConfigurator/processConfigurator.js:121-178 | the drawing becomes `Loading.LoadedAndCentered` of the loaded data, so the nodes end centred with the default padding of 24; only nodes, edges and counters change |
| Configurator.ProcessConfigurator.LoadTemplateData | force-app/main/default/lwc/processConfigurator/processConfigurator.js:114-184 | a failed load changes nothing. A successful one sets the three form fields from the response and makes the drawing `Loading.LoadedAndCentered` of it, so the loaded nodes end centred with the default padding of 24; nothing else changes |

## Left out

- **Rendering:**
  - Konva rendering, styling and highlighting (`highlightGroup`, arrow colours on selection, `layer.draw`).
  - Canvas setup in `initializeCanvas` and `renderedCallback`.
  - The stage size is a parameter of the centering methods.
- **Apex calls** (`getTemplates`, `getTemplateForEditing`, `saveProcessTemplate`) are parameters: the data or the answer they return, or `None` for a failure. Their asynchrony is not modelled.
- **Notifications and encoding:** toasts, `console`, `alert` and the JSON encoding of the payload.
- **`templateOptions`** is a plain projection of the template list, so it is not modelled.
- **`handleAddLogic`'s canvas-ready guard:** the model assumes the canvas exists.
- **Step-list editing modal and printing:** `handleEditStepsClick`, `handleStepsInputChange`, `handleModalEditCancel`, `handleSaveSteps`, `handlePrint`, `showEditButton`, `allowedStepIdsText` and the modal visibility flags. These belong to that modal and to printing, not to the graph.
- **`extractStepIdsFromLogic`** is modelled by `JsText.DigitRuns`, but the component never calls it.
- **JavaScript value details:**
  - `parseInt` is modelled for decimal text only: a `0x` prefix and white space beyond ASCII, NBSP and BOM are not modelled.
  - `null` and `undefined` are merged into `None`. A missing template id prints as `undefined`, a missing selected template as `null`.
  - Numbers are real numbers: floating-point rounding is not modelled.
- **Sort in `addStep`:** the sort of the used numbers is omitted, because it does not affect which numbers are included.
- Configurator.ProcessConfigurator.HandleLogicModalSave: with no diamond open, an accepted condition makes the source throw a TypeError before any change; the model returns with the state unchanged.
- JsText.Trim: white space is ASCII white space, NBSP and the BOM; the other Unicode space separators that JavaScript's `trim` also strips (U+1680, U+2000 to U+200A, U+2028, U+2029, U+202F, U+205F, U+3000) are kept.
- JsText.DigitRuns: the contract says only that each match is a non-empty run of digits; that the matches are maximal and in order is fixed by its definition, not stated as a property.
- JsText.DigitWords: the contract says only that each match is a non-empty run of digits; that matches lie on word boundaries is fixed by its definition.
- Loading.Loaded: the counts of nodes and edges and the set of cached targets are proved for the whole load; which edge each connection adds, with its ends, line and colour, is proved one connection at a time (`Loading.PlainConnection`, `Loading.CachedDiamondConnection`, `Loading.NewDiamondConnection`), not as a closed formula over all connections.
- **Other repository files:** components other than `processConfigurator` are not part of this model.
