/**
 * The graph model of the process configurator: step boxes and logic
 * diamonds (`Group`), directed edges (`Connection`), the fixed node sizes,
 * the edge endpoint rule, and the `step-N__template-T` naming scheme from
 * which step numbers are read back.
 */
module Graph {
  import opened Wrappers
  import opened JsText

  /** Identity of a node; the source compares the node objects themselves. */
  type Key = nat
  /** Identity of a drawn line; the source compares the line objects themselves. */
  type LineId = nat

  datatype Kind = Step | Logic

  /**
   * A node on the canvas. `templateId` is `None` where the source leaves it
   * undefined (logic nodes); `logicCondition` is only meaningful for logic nodes.
   */
  datatype Group = Group(
    key: Key,
    name: string,
    kind: Kind,
    x: real,
    y: real,
    templateId: Option<string>,
    logicCondition: string,
    text: string)

  datatype Size = Size(w: real, h: real)

  /** The arrow's points `[fromX, fromY, toX, toY]`. */
  datatype Points = Points(x1: real, y1: real, x2: real, y2: real)

  datatype Color = Black | Green

  datatype Connection = Connection(from: Key, to: Key, line: LineId, points: Points, color: Color)

  /** An entry of the template catalogue: its `Id` and `Name`. */
  datatype TemplateInfo = TemplateInfo(id: string, name: string)

  const StepSize := Size(140.0, 70.0)
  const LogicSize := Size(140.0, 140.0)

  /** `nodeDims`: every node is 140 wide; a logic diamond is square, a step half as high. */
  function NodeDims(k: Kind): (s: Size)
    ensures s.w == 140.0 && s.h > 0.0
    ensures s.h == s.w <==> k == Logic
    ensures k == Step ==> s.h == s.w / 2.0
  {
    if k == Logic then LogicSize else StepSize
  }

  /**
   * The endpoint rule shared by `drawArrow`, `recomputeConnections`, the step
   * drag handler and `handleGroupClick`: both ends at the horizontal centre;
   * a lower target is entered at its top from the source's bottom, any other
   * target at its bottom from the source's top. Each end therefore sits at
   * the middle of the top or bottom side of its node.
   */
  function Route(fx: real, fy: real, fs: Size, tx: real, ty: real, ts: Size): (p: Points)
    ensures p.x1 - fx == fs.w / 2.0 && p.x2 - tx == ts.w / 2.0
    ensures p.y1 == fy || p.y1 == fy + fs.h
    ensures p.y2 == ty || p.y2 == ty + ts.h
  {
    if ty > fy then Points(fx + fs.w / 2.0, fy + fs.h, tx + ts.w / 2.0, ty)
    else Points(fx + fs.w / 2.0, fy, tx + ts.w / 2.0, ty + ts.h)
  }

  /**
   * When the two boxes do not overlap vertically, the arrow runs between the
   * sides that face each other: from the source's bottom to the target's top
   * when the target is below, from the source's top to the target's bottom
   * when it is above.
   */
  lemma RouteFollowsFlow(fx: real, fy: real, fs: Size, tx: real, ty: real, ts: Size)
    requires fs.h > 0.0 && ts.h > 0.0
    ensures var p := Route(fx, fy, fs, tx, ty, ts);
      && (ty >= fy + fs.h ==> fy < p.y1 <= p.y2 && p.y2 == ty)
      && (fy >= ty + ts.h ==> p.y2 <= p.y1 && p.y1 == fy && p.y2 == ty + ts.h)
  {
  }

  /** Moving both nodes by the same offset moves the arrow by that offset. */
  lemma RouteTranslates(fx: real, fy: real, fs: Size, tx: real, ty: real, ts: Size, dx: real, dy: real)
    ensures var p := Route(fx, fy, fs, tx, ty, ts);
      Route(fx + dx, fy + dy, fs, tx + dx, ty + dy, ts)
      == Points(p.x1 + dx, p.y1 + dy, p.x2 + dx, p.y2 + dy)
  {
  }

  // ---------------------------------------------------------------- lookup


  predicate DistinctKeys(gs: seq<Group>)
  {
    forall i, j :: 0 <= i < j < |gs| ==> gs[i].key != gs[j].key
  }

  /** Position of the first node with key `k`, or `|gs|` when there is none. */
  function FindIndex(gs: seq<Group>, k: Key): (i: nat)
    ensures i <= |gs|
    ensures i < |gs| ==> gs[i].key == k
    ensures forall j :: 0 <= j < i ==> gs[j].key != k
  {
    if gs == [] then 0 else if gs[0].key == k then 0 else 1 + FindIndex(gs[1..], k)
  }

  /** Some node has key `k`. */
  predicate HasKey(gs: seq<Group>, k: Key)
  {
    FindIndex(gs, k) < |gs|
  }

  /** The node with key `k`. */
  function At(gs: seq<Group>, k: Key): (g: Group)
    requires HasKey(gs, k)
    ensures g.key == k
  {
    gs[FindIndex(gs, k)]
  }

  lemma AtIndex(gs: seq<Group>, i: nat)
    requires DistinctKeys(gs) && i < |gs|
    ensures HasKey(gs, gs[i].key) && FindIndex(gs, gs[i].key) == i && At(gs, gs[i].key) == gs[i]
  {
  }

  /** Two node lists with the same keys position by position. */
  predicate SameKeys(a: seq<Group>, b: seq<Group>)
  {
    |a| == |b| && forall i :: 0 <= i < |a| ==> a[i].key == b[i].key
  }

  lemma {:induction false} FindIndexSameKeys(a: seq<Group>, b: seq<Group>, k: Key)
    requires SameKeys(a, b)
    ensures FindIndex(a, k) == FindIndex(b, k)
  {
    if a != [] && a[0].key != k {
      FindIndexSameKeys(a[1..], b[1..], k);
    }
  }

  lemma {:induction false} FindIndexAppend(a: seq<Group>, g: Group, k: Key)
    ensures HasKey(a, k) ==> FindIndex(a + [g], k) == FindIndex(a, k)
    ensures !HasKey(a, k) && g.key == k ==> FindIndex(a + [g], k) == |a|
  {
    if a != [] && a[0].key != k {
      assert (a + [g])[1..] == a[1..] + [g];
      FindIndexAppend(a[1..], g, k);
    }
  }

  /** `HasKey` is plain membership of a key. */
  lemma HasKeyIff(gs: seq<Group>, k: Key)
    ensures HasKey(gs, k) <==> exists i :: 0 <= i < |gs| && gs[i].key == k
  {
  }

  /** Every edge joins two nodes of the diagram. */
  predicate Linked(gs: seq<Group>, cs: seq<Connection>)
  {
    forall i :: 0 <= i < |cs| ==> HasKey(gs, cs[i].from) && HasKey(gs, cs[i].to)
  }

  /** Lists with the same keys in the same places find every key at the same place. */
  lemma SameKeysAgree(a: seq<Group>, b: seq<Group>)
    requires SameKeys(a, b)
    ensures forall k :: FindIndex(a, k) == FindIndex(b, k)
  {
    forall k ensures FindIndex(a, k) == FindIndex(b, k) {
      FindIndexSameKeys(a, b, k);
    }
  }

  /** Moving or relabelling nodes without touching their keys keeps every edge attached. */
  lemma SameKeysLinked(a: seq<Group>, b: seq<Group>, cs: seq<Connection>)
    requires SameKeys(a, b) && Linked(a, cs)
    ensures Linked(b, cs)
  {
    SameKeysAgree(a, b);
  }

  /** Appending a node keeps every lookup that already succeeded, and finds the new node by its key. */
  lemma AppendKeepsLookups(a: seq<Group>, g: Group, cs: seq<Connection>)
    requires !HasKey(a, g.key)
    ensures forall k :: HasKey(a, k) ==> HasKey(a + [g], k) && At(a + [g], k) == At(a, k)
    ensures HasKey(a + [g], g.key) && At(a + [g], g.key) == g
    ensures Linked(a, cs) ==> Linked(a + [g], cs)
  {
    forall k ensures HasKey(a, k) ==> FindIndex(a + [g], k) == FindIndex(a, k) {
      FindIndexAppend(a, g, k);
    }
    FindIndexAppend(a, g, g.key);
  }

  predicate Incident(c: Connection, k: Key)
  {
    c.from == k || c.to == k
  }

  // ---------------------------------------------------------------- naming

  /** How a template literal prints a node's `templateId`. */
  function TemplateText(t: Option<string>): string
  {
    match t
    case Some(s) => s
    case None => "undefined"
  }

  /** `step-${n}__template-${t}`. */
  function StepName(n: nat, templateText: string): string
  {
    "step-" + NatToString(n) + "__template-" + templateText
  }

  /** `Step ${n}\n${templateName}`. */
  function StepLabel(n: nat, templateName: string): string
  {
    "Step " + NatToString(n) + "\n" + templateName
  }

  /** `templates.find(t => t.Id === id)?.Name || ''`. */
  function TemplateName(templates: seq<TemplateInfo>, id: Option<string>): string
  {
    if id.None? || templates == [] then ""
    else if templates[0].id == id.value then templates[0].name
    else TemplateName(templates[1..], id)
  }

  /** `parseInt(name.split('__')[0].replace('step-', ''))`; `None` is NaN. */
  function ParseStepNumber(name: string): (r: Option<int>)
    ensures r.Some? ==> exists c :: c in name && IsDigit(c)
  {
    ParseInt(RemoveFirst(BeforeSeparator(name), "step-"))
  }

  /** The step number is read back from every name `StepName` builds. */
  lemma ParseStepNumberOfStepName(n: nat, t: string)
    ensures ParseStepNumber(StepName(n, t)) == Some(n)
  {
    var d := NatToString(n);
    var a := "step-" + d;
    assert StepName(n, t) == a + "__" + ("template-" + t);
    forall i | 0 <= i < |a| ensures a[i] != '_' {
      if i >= 5 { assert a[i] == d[i - 5]; assert IsDigit(d[i - 5]); }
    }
    BeforeSeparatorOf(a, "template-" + t);
    assert a[..5] == "step-";
    assert RemoveFirst(a, "step-") == d;
    ParseIntOfIntToString(n);
  }

  /** Names of logic nodes (`logic-…`) parse to NaN, so they never count as step numbers. */
  lemma ParseStepNumberOfLogicName(rest: string)
    ensures ParseStepNumber("logic-" + rest) == None
  {
    var s := "logic-" + rest;
    var b := BeforeSeparator(s);
    assert s[..2] == "lo";
    assert b[0] == 'l' by { assert s[0] == 'l' && s[1] != '_'; }
    var r := RemoveFirst(b, "step-");
    assert |b| < 5 || b[..5] != "step-" by { if |b| >= 5 { assert b[0] != 's'; } }
    assert |r| > 0 by { if |b| < 5 { assert r == b; } else { assert r == [b[0]] + RemoveFirst(b[1..], "step-"); } }
    ParseIntOfNonNumeric(r);
  }

  /** The `map` of `addStep`: each node name read as a step number, `None` for NaN. */
  function NameNumbers(gs: seq<Group>): (r: seq<Option<int>>)
    ensures |r| == |gs|
  {
    seq(|gs|, i requires 0 <= i < |gs| => ParseStepNumber(gs[i].name))
  }

  /** The `filter` of `addStep`: the numbers that are not NaN, in list order. */
  function Numbers(ps: seq<Option<int>>): seq<int>
  {
    if ps == [] then []
    else
      var rest := Numbers(ps[1..]);
      match ps[0]
      case Some(n) => [n] + rest
      case None => rest
  }

  /** The numbers `addStep` reads from the current node names, in list order. */
  function UsedStepNumbers(gs: seq<Group>): seq<int>
  {
    Numbers(NameNumbers(gs))
  }

  /** A number survives the filter exactly when some entry holds it. */
  lemma {:induction false} NumbersHas(ps: seq<Option<int>>, n: int)
    ensures n in Numbers(ps) <==> exists i :: 0 <= i < |ps| && ps[i] == Some(n)
  {
    if ps != [] {
      NumbersHas(ps[1..], n);
      if exists i :: 0 <= i < |ps| && ps[i] == Some(n) {
        var i :| 0 <= i < |ps| && ps[i] == Some(n);
        if i > 0 { assert ps[1..][i - 1] == ps[i]; }
      }
      if n in Numbers(ps[1..]) {
        var i :| 0 <= i < |ps| - 1 && ps[1..][i] == Some(n);
        assert ps[i + 1] == ps[1..][i];
      }
    }
  }

  /** A number is in use exactly when some node's name reads back as it; NaN names add nothing. */
  lemma UsedStepNumbersSpec(gs: seq<Group>)
    ensures forall n :: n in UsedStepNumbers(gs) <==> exists i :: 0 <= i < |gs| && ParseStepNumber(gs[i].name) == Some(n)
  {
    var ps := NameNumbers(gs);
    forall n ensures n in UsedStepNumbers(gs) <==> exists i :: 0 <= i < |gs| && ParseStepNumber(gs[i].name) == Some(n) {
      NumbersHas(ps, n);
      assert forall i :: 0 <= i < |gs| ==> ps[i] == ParseStepNumber(gs[i].name);
    }
  }

  /**
   * The `while (usedNumbers.includes(nextNumber))` loop of `addStep`: the
   * smallest positive integer that is not used.
   */
  method SmallestUnused(used: seq<int>) returns (n: int)
    ensures n >= 1 && n !in used
    ensures forall k :: 1 <= k < n ==> k in used
    ensures n == LeastUnused(used)
  {
    n := 1;
    while n in used
      invariant n >= 1
      invariant forall k :: 1 <= k < n ==> k in used
      decreases set u | u in used && u >= n
    {
      ghost var before := set u | u in used && u >= n;
      n := n + 1;
      assert n - 1 in before && n - 1 !in set u | u in used && u >= n;
    }
    LeastUnusedUnique(used, n, LeastUnused(used));
  }

  /** The largest value in `s`, or 0 when there is none larger. */
  function MaxOrZero(s: seq<int>): (m: int)
    ensures m >= 0 && forall i :: 0 <= i < |s| ==> s[i] <= m
  {
    if s == [] then 0
    else
      var m := MaxOrZero(s[1..]);
      if s[0] > m then s[0] else m
  }

  /** The smallest integer from `m` on that is not in `used`. */
  function LeastUnusedFrom(used: seq<int>, m: int): (n: int)
    requires m >= 1
    ensures n >= m && n !in used
    ensures forall k :: m <= k < n ==> k in used
    decreases MaxOrZero(used) + 1 - m
  {
    if m in used then LeastUnusedFrom(used, m + 1) else m
  }

  /** The smallest positive integer that is not in `used`. */
  function LeastUnused(used: seq<int>): (n: int)
    ensures n >= 1 && n !in used
    ensures forall k :: 1 <= k < n ==> k in used
  {
    LeastUnusedFrom(used, 1)
  }

  /** There is only one smallest unused positive integer. */
  lemma LeastUnusedUnique(used: seq<int>, a: int, b: int)
    requires a >= 1 && a !in used && forall k :: 1 <= k < a ==> k in used
    requires b >= 1 && b !in used && forall k :: 1 <= k < b ==> k in used
    ensures a == b
  {
  }

  /** The number `addStep` gives the next step on the canvas `gs`. */
  function NextStepNumber(gs: seq<Group>): (n: int)
    ensures n >= 1 && n !in UsedStepNumbers(gs)
    ensures forall k :: 1 <= k < n ==> k in UsedStepNumbers(gs)
  {
    LeastUnused(UsedStepNumbers(gs))
  }

  /**
   * `renumberSteps`: every node, logic diamonds included, is renamed and
   * relabelled after its position in the list.
   */
  function Renumbered(gs: seq<Group>, templates: seq<TemplateInfo>): (r: seq<Group>)
    ensures |r| == |gs|
    ensures forall i :: 0 <= i < |r| ==> r[i] == gs[i].(name := r[i].name, text := r[i].text)
  {
    seq(|gs|, i requires 0 <= i < |gs| =>
      gs[i].(name := StepName(i + 1, TemplateText(gs[i].templateId)),
             text := StepLabel(i + 1, TemplateName(templates, gs[i].templateId))))
  }

  /**
   * After renumbering, the node at position i reads back as step i + 1, so the
   * numbers in use are exactly 1..n, and nothing but names and labels changed.
   */
  lemma RenumberedIsDense(gs: seq<Group>, templates: seq<TemplateInfo>)
    ensures var r := Renumbered(gs, templates);
      && (forall i :: 0 <= i < |r| ==> ParseStepNumber(r[i].name) == Some(i + 1))
      && (forall i :: 0 <= i < |r| ==>
            r[i].key == gs[i].key && r[i].kind == gs[i].kind && r[i].x == gs[i].x && r[i].y == gs[i].y
            && r[i].templateId == gs[i].templateId && r[i].logicCondition == gs[i].logicCondition)
      && (forall n :: n in UsedStepNumbers(r) <==> 1 <= n <= |r|)
  {
    var r := Renumbered(gs, templates);
    forall i | 0 <= i < |r| ensures ParseStepNumber(r[i].name) == Some(i + 1) {
      var name := StepName(i + 1, TemplateText(gs[i].templateId));
      assert r[i].name == name;
      ParseStepNumberOfStepName(i + 1, TemplateText(gs[i].templateId));
    }
    DenseNumbers(NameNumbers(r));
  }

  /** Entries reading 1, 2, …, n in order leave exactly 1..n after the filter. */
  lemma DenseNumbers(ps: seq<Option<int>>)
    requires forall i :: 0 <= i < |ps| ==> ps[i] == Some(i + 1)
    ensures forall n :: n in Numbers(ps) <==> 1 <= n <= |ps|
  {
    forall n ensures n in Numbers(ps) <==> 1 <= n <= |ps| {
      NumbersHas(ps, n);
      if 1 <= n <= |ps| { assert ps[n - 1] == Some(n); }
    }
  }

  /** Hence the step added after a delete is numbered one past the remaining nodes. */
  lemma NextNumberAfterRenumber(gs: seq<Group>, templates: seq<TemplateInfo>)
    ensures NextStepNumber(Renumbered(gs, templates)) == |gs| + 1
  {
    var used := UsedStepNumbers(Renumbered(gs, templates));
    var n := NextStepNumber(Renumbered(gs, templates));
    RenumberedIsDense(gs, templates);
    assert forall k :: k in used <==> 1 <= k <= |gs|;
    assert n > |gs|;
    assert n <= |gs| + 1 by {
      assert |gs| + 1 !in used;
    }
  }
}
