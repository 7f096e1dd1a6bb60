/**
 * The pseudo component: the synthetic graph node built from a connection
 * expression, its construction, its edges, its validity flag, its slots and
 * its Jacobian row.
 */
module PseudoComp {
  import opened Outcomes
  import opened Names
  import opened Expressions
  import opened References
  import opened Metadata

  /** What a slot holds. */
  datatype Value =
    | NoValue                                  // Python None
    | Plain(x: real)
    | Quantity(magnitude: real, units: string) // a PhysicalQuantity
    | Wrapped(magnitude: real, units: string)  // a UnitsAttrWrapper around a quantity

  /** What `set` stores: the bare value of a wrapper or a quantity, anything else as it is. */
  function Unwrapped(v: Value): (r: Value)
    ensures !r.Quantity? && !r.Wrapped?
    ensures v.Quantity? || v.Wrapped? ==> r == Plain(v.magnitude)
    ensures !v.Quantity? && !v.Wrapped? ==> r == v
  {
    match v
    case Wrapped(m, _) => Plain(m)
    case Quantity(m, _) => Plain(m)
    case _ => v
  }

  /** What the expression evaluator reports about a parsed expression. */
  datatype ExprSpec = ExprSpec(text: string, tree: Expr, refs: seq<string>, metadata: seq<(string, Meta)>)

  /** `DummyExpr`: the destination used when none is given. */
  function DummyExpr(): (e: ExprSpec)
    ensures e.text == "" && e.refs == [""]
    ensures VarName(e.refs[0]) in PairNames(e.metadata)
  {
    var e := ExprSpec("", Ref(""), [""], [("", map[])]);
    assert e.metadata[0].0 == "";
    e
  }

  /** The destination construction works with: the given one, else the dummy. */
  function Target(dest: Option<ExprSpec>): (d: ExprSpec)
    ensures dest.Some? ==> d == dest.value
    ensures dest.None? ==> d == DummyExpr()
  {
    if dest.Some? then dest.value else DummyExpr()
  }

  /** The source metadata table, keyed by variable name. */
  function SourceTable(src: ExprSpec): map<string, Meta>
  {
    Overlay(map[], src.metadata)
  }

  /** The calls the node makes on its parent scope, as the parent records them. */
  datatype ParentCall =
    | ConnectCall(src: string, dest: string)
    | DisconnectCall(src: string, dest: string)
    | UpdateInputsCall(node: string)

  /** The owning scope, reduced to the record of calls it receives. */
  class Parent {
    var calls: seq<ParentCall>

    constructor ()
      ensures calls == []
    {
      calls := [];
    }

    /** `_connect`. */
    method Connect(src: string, dest: string)
      modifies this
      ensures calls == old(calls) + [ConnectCall(src, dest)]
    {
      calls := calls + [ConnectCall(src, dest)];
    }

    /** `disconnect`. */
    method Disconnect(src: string, dest: string)
      modifies this
      ensures calls == old(calls) + [DisconnectCall(src, dest)]
    {
      calls := calls + [DisconnectCall(src, dest)];
    }

    /** `update_inputs(node, None)`: the values it pushes arrive through later `set` calls. */
    method UpdateInputs(node: string)
      modifies this
      ensures calls == old(calls) + [UpdateInputsCall(node)]
    {
      calls := calls + [UpdateInputsCall(node)];
    }
  }

  function ConnectCalls(edges: seq<(string, string)>): (r: seq<ParentCall>)
    ensures |r| == |edges|
    ensures forall i :: 0 <= i < |edges| ==> r[i] == ConnectCall(edges[i].0, edges[i].1)
  {
    seq(|edges|, i requires 0 <= i < |edges| => ConnectCall(edges[i].0, edges[i].1))
  }

  function DisconnectCalls(edges: seq<(string, string)>): (r: seq<ParentCall>)
    ensures |r| == |edges|
    ensures forall i :: 0 <= i < |edges| ==> r[i] == DisconnectCall(edges[i].0, edges[i].1)
  {
    seq(|edges|, i requires 0 <= i < |edges| => DisconnectCall(edges[i].0, edges[i].1))
  }

  lemma ConnectCallsSnoc(edges: seq<(string, string)>, i: nat)
    requires i < |edges|
    ensures ConnectCalls(edges[..i + 1]) == ConnectCalls(edges[..i]) + [ConnectCall(edges[i].0, edges[i].1)]
  {
  }

  lemma DisconnectCallsSnoc(edges: seq<(string, string)>, i: nat)
    requires i < |edges|
    ensures DisconnectCalls(edges[..i + 1]) == DisconnectCalls(edges[..i]) + [DisconnectCall(edges[i].0, edges[i].1)]
  {
  }

  /** The state the constructor computes before the node exists. */
  datatype Layout = Layout(
    inputs: seq<string>,
    mapping: map<string, string>,
    order: seq<string>,
    meta: map<string, Meta>,
    slots: map<string, Value>,
    outdest: string,
    srcExpr: Expr,
    srcUnits: Option<string>)

  /** What holds of every constructed node's tables. */
  ghost predicate WellFormed(l: Layout)
  {
    && Distinct(l.order) && Elements(l.order) == l.mapping.Keys
    && l.inputs == InputNames(|l.inputs|)
    && (forall r :: r in l.mapping ==> l.mapping[r] in l.inputs)
    && "out0" in l.meta
    && Elements(l.inputs) + {"out0"} <= l.slots.Keys
  }

  /** The slots of a fresh node: one per input and `out0`, all None. */
  function FreshSlots(inputs: seq<string>): (r: map<string, Value>)
    ensures r.Keys == Elements(inputs) + {"out0"}
    ensures forall n :: n in r ==> r[n] == NoValue
  {
    map n | n in Elements(inputs) + {"out0"} :: NoValue
  }

  /**
   * The metadata step passes: every source name is a base name, and the
   * destination has a reference whose base name has metadata.
   */
  ghost predicate MetaSucceeds(srcMeta: map<string, Meta>, varmap: map<string, string>, d: ExprSpec)
  {
    && srcMeta.Keys <= varmap.Keys
    && |d.refs| > 0
    && VarName(d.refs[0]) in Overlay(srcMeta, d.metadata)
  }

  /**
   * The metadata of a constructed node: the source table re-keyed by local
   * name, and under `out0` the entry of the destination's base name in the
   * source table overlaid with the destination's metadata.
   */
  ghost function PlannedMeta(srcMeta: map<string, Meta>, varmap: map<string, string>, d: ExprSpec): map<string, Meta>
    requires MetaSucceeds(srcMeta, varmap, d)
  {
    Relabeled(srcMeta, varmap)["out0" := Overlay(srcMeta, d.metadata)[VarName(d.refs[0])]]
  }

  /**
   * Without a destination the metadata step passes as soon as every source
   * name is a base name, and `out0` gets the dummy's empty record, so no unit
   * transform is made.
   */
  lemma NoDestinationDeclaresNoUnits(srcMeta: map<string, Meta>, varmap: map<string, string>)
    requires srcMeta.Keys <= varmap.Keys
    ensures MetaSucceeds(srcMeta, varmap, DummyExpr())
    ensures Units(PlannedMeta(srcMeta, varmap, DummyExpr())["out0"]).None?
  {
  }

  /**
   * The metadata part of `__init__`: re-keys the source table by local name,
   * overlays the destination's metadata and attaches the entry of the
   * destination's base name as `out0`.
   */
  method PlanMeta(srcMeta: map<string, Meta>, varmap: map<string, string>, d: ExprSpec)
    returns (r: Result<map<string, Meta>, Error>)
    ensures r.Ok? <==> MetaSucceeds(srcMeta, varmap, d)
    ensures !(srcMeta.Keys <= varmap.Keys) ==>
      r.Err? && r.error.MissingKey? && r.error.key in srcMeta && r.error.key !in varmap
    ensures srcMeta.Keys <= varmap.Keys && |d.refs| == 0 ==> r == Err(NoTargetReference)
    ensures srcMeta.Keys <= varmap.Keys && |d.refs| > 0 && VarName(d.refs[0]) !in Overlay(srcMeta, d.metadata) ==>
      r == Err(MissingKey(VarName(d.refs[0])))
    ensures r.Ok? ==> "out0" in r.value && r.value["out0"] == Overlay(srcMeta, d.metadata)[VarName(d.refs[0])]
    ensures r.Ok? && Injective(varmap) ==> r.value == PlannedMeta(srcMeta, varmap, d)
  {
    var relabeled := Relabel(srcMeta, varmap);
    if relabeled.Err? {
      return Err(relabeled.error);
    }
    var table := Record(srcMeta, d.metadata);
    if |d.refs| == 0 {
      return Err(NoTargetReference);
    }
    var base := VarName(d.refs[0]);
    if base !in table {
      return Err(MissingKey(base));
    }
    return Ok(relabeled.value["out0" := table[base]]);
  }

  /**
   * The units step passes: the destination declares no units, or every input
   * has metadata, the probe yields the source's units and the unit library
   * has a conversion from them to the destination's.
   */
  ghost predicate SourceSucceeds(xformed: Expr, inputs: seq<string>, meta: map<string, Meta>,
                                 probeUnits: (Expr, map<string, Probe>) -> Option<string>,
                                 conversion: (string, string) -> Option<Conversion>)
    requires "out0" in meta
  {
    var outUnits := Units(meta["out0"]);
    || outUnits.None?
    || (&& (forall i :: 0 <= i < |inputs| ==> inputs[i] in meta)
        && var pq := probeUnits(xformed, ProbeTable(inputs, meta));
           pq.Some? && conversion(pq.value, outUnits.value).Some?)
  }

  /**
   * The error the units step raises when it fails: KeyError on the first input
   * without metadata, the probe's failure, or a TypeError naming both
   * expression texts and both units.
   */
  ghost predicate SourceFailsWith(e: Error, xformed: Expr, inputs: seq<string>, meta: map<string, Meta>,
                                  srcText: string, destText: string,
                                  probeUnits: (Expr, map<string, Probe>) -> Option<string>)
    requires "out0" in meta
  {
    var outUnits := Units(meta["out0"]);
    outUnits.Some? ==>
      && (!(forall i :: 0 <= i < |inputs| ==> inputs[i] in meta) ==>
            e == MissingKey(inputs[FirstAbsent(inputs, meta.Keys)]))
      && ((forall i :: 0 <= i < |inputs| ==> inputs[i] in meta) ==>
            var pq := probeUnits(xformed, ProbeTable(inputs, meta));
            && (pq.None? ==> e == NoSourceUnits)
            && (pq.Some? ==> e == CannotConnect(srcText, destText, IncompatibleUnits(pq.value, outUnits.value))))
  }

  /**
   * The units part of `__init__`: without output units the renamed source is
   * kept; with them, the source is evaluated on probe values to learn its units
   * and rewritten by the unit transform, whose failure becomes a TypeError
   * naming both expression texts.
   */
  method PlanSource(xformed: Expr, inputs: seq<string>, meta: map<string, Meta>, srcText: string, destText: string,
                    probeUnits: (Expr, map<string, Probe>) -> Option<string>,
                    conversion: (string, string) -> Option<Conversion>)
    returns (r: Result<(Expr, Option<string>), Error>)
    requires "out0" in meta
    ensures r.Ok? <==> SourceSucceeds(xformed, inputs, meta, probeUnits, conversion)
    ensures r.Err? ==> SourceFailsWith(r.error, xformed, inputs, meta, srcText, destText, probeUnits)
    ensures Units(meta["out0"]).None? ==> r == Ok((xformed, None))
    ensures r.Ok? && Units(meta["out0"]).Some? ==>
      var outUnits := Units(meta["out0"]).value;
      && r.value.1 == probeUnits(xformed, ProbeTable(inputs, meta))
      && r.value.1.Some?
      && UnitTransform(xformed, r.value.1.value, outUnits, conversion(r.value.1.value, outUnits)) == Ok(r.value.0)
  {
    var outUnits := Units(meta["out0"]);
    if outUnits.None? {
      return Ok((xformed, None));
    }
    var probes := UnitProbes(inputs, meta);
    if probes.Err? {
      return Err(probes.error);
    }
    var pq := probeUnits(xformed, probes.value);
    if pq.None? {
      return Err(NoSourceUnits);
    }
    var transformed := UnitTransform(xformed, pq.value, outUnits.value, conversion(pq.value, outUnits.value));
    if transformed.Err? {
      return Err(CannotConnect(srcText, destText, transformed.error));
    }
    return Ok((transformed.value, pq));
  }

  /** The local names the relabelled metadata can be keyed by are input names, never `out0`. */
  lemma BaseMapIntoInputs(refs: seq<string>)
    ensures forall k :: k in RefMap(Bases(refs)) ==> RefMap(Bases(refs))[k] in InputNames(|refs|)
    ensures "out0" !in RefMap(Bases(refs)).Values
    ensures Injective(RefMap(Bases(refs)))
    ensures RefMap(Bases(refs)).Keys == Elements(Bases(refs))
  {
    var m := RefMap(Bases(refs));
    RefMapIntoInputs(Bases(refs));
    RefMapInjective(Bases(refs));
    RefMapLastOccurrence(Bases(refs));
    if "out0" in m.Values {
      var k :| k in m && m[k] == "out0";
      var i :| 0 <= i < |refs| && InputNames(|refs|)[i] == "out0";
      InNameIsNotOut(i);
    }
  }

  /** Construction succeeds: one destination reference, and both the metadata and the units step pass. */
  ghost predicate PlanSucceeds(src: ExprSpec, dest: Option<ExprSpec>,
                               probeUnits: (Expr, map<string, Probe>) -> Option<string>,
                               conversion: (string, string) -> Option<Conversion>)
  {
    var d, srcMeta, varmap := Target(dest), SourceTable(src), RefMap(Bases(src.refs));
    && |d.refs| == 1
    && MetaSucceeds(srcMeta, varmap, d)
    && SourceSucceeds(Substitute(src.tree, RefMap(src.refs)), InputNames(|src.refs|),
                      PlannedMeta(srcMeta, varmap, d), probeUnits, conversion)
  }

  /**
   * The tables of a node built from src and dest: one input per reference
   * occurrence, the reference table and its key order, every slot None, the
   * planned metadata, and the renamed source, unit-transformed from the probed
   * units when `out0` declares units.
   */
  ghost predicate PlannedLayout(l: Layout, src: ExprSpec, dest: Option<ExprSpec>,
                                probeUnits: (Expr, map<string, Probe>) -> Option<string>,
                                conversion: (string, string) -> Option<Conversion>)
  {
    var d, srcMeta, varmap := Target(dest), SourceTable(src), RefMap(Bases(src.refs));
    var xformed := Substitute(src.tree, RefMap(src.refs));
    && |d.refs| == 1
    && MetaSucceeds(srcMeta, varmap, d)
    && l.inputs == InputNames(|src.refs|)
    && l.mapping == RefMap(src.refs)
    && l.order == KeyOrder(src.refs)
    && l.slots == FreshSlots(l.inputs)
    && l.outdest == d.text
    && l.meta == PlannedMeta(srcMeta, varmap, d)
    && (Units(l.meta["out0"]).None? ==> l.srcExpr == xformed && l.srcUnits.None?)
    && (Units(l.meta["out0"]).Some? ==>
          var outUnits := Units(l.meta["out0"]).value;
          && l.srcUnits == probeUnits(xformed, ProbeTable(l.inputs, l.meta))
          && l.srcUnits.Some?
          && UnitTransform(xformed, l.srcUnits.value, outUnits, conversion(l.srcUnits.value, outUnits)) == Ok(l.srcExpr))
  }

  /** The error construction raises, step by step in the order `__init__` takes them. */
  ghost predicate PlanFailsWith(e: Error, src: ExprSpec, dest: Option<ExprSpec>,
                                probeUnits: (Expr, map<string, Probe>) -> Option<string>)
  {
    var d, srcMeta, varmap := Target(dest), SourceTable(src), RefMap(Bases(src.refs));
    && (|d.refs| > 1 ==> e == InvalidTarget)
    && (|d.refs| <= 1 && !(srcMeta.Keys <= varmap.Keys) ==>
          e.MissingKey? && e.key in srcMeta && e.key !in varmap)
    && (|d.refs| == 0 && srcMeta.Keys <= varmap.Keys ==> e == NoTargetReference)
    && (|d.refs| == 1 && srcMeta.Keys <= varmap.Keys && VarName(d.refs[0]) !in Overlay(srcMeta, d.metadata) ==>
          e == MissingKey(VarName(d.refs[0])))
    && (|d.refs| == 1 && MetaSucceeds(srcMeta, varmap, d) ==>
          SourceFailsWith(e, Substitute(src.tree, RefMap(src.refs)), InputNames(|src.refs|),
                          PlannedMeta(srcMeta, varmap, d), src.text, d.text, probeUnits))
  }

  /**
   * `__init__` up to the creation of the evaluators: the reference loop, the
   * destination check, the metadata relabelling and, when the destination
   * declares units, the unit probe and the unit transform. The evaluation of
   * the source on probe values and the conversion-tuple lookup are foreign and
   * given as probeUnits and conversion.
   */
  method Plan(src: ExprSpec, dest: Option<ExprSpec>,
              probeUnits: (Expr, map<string, Probe>) -> Option<string>,
              conversion: (string, string) -> Option<Conversion>)
    returns (r: Result<Layout, Error>)
    ensures r.Ok? <==> PlanSucceeds(src, dest, probeUnits, conversion)
    ensures r.Err? ==> PlanFailsWith(r.error, src, dest, probeUnits)
    ensures r.Ok? ==> WellFormed(r.value) && PlannedLayout(r.value, src, dest, probeUnits, conversion)
    ensures r.Ok? ==> forall k :: k in SourceTable(src) ==>
      k in RefMap(Bases(src.refs)) && r.value.meta[RefMap(Bases(src.refs))[k]] == SourceTable(src)[k]
    ensures r.Ok? && Refs(src.tree) <= Elements(src.refs) ==> Refs(r.value.srcExpr) <= Elements(r.value.inputs)
  {
    var d := Target(dest);
    var srcMeta := Record(map[], src.metadata);
    var inputs, mapping, order, varmap, slotNames := MapReferences(src.refs);
    if |d.refs| > 1 {
      return Err(InvalidTarget);
    }
    BaseMapIntoInputs(src.refs);
    var meta := PlanMeta(srcMeta, varmap, d);
    if meta.Err? {
      return Err(meta.error);
    }
    var slots := FreshSlots(inputs);
    var xformed := Substitute(src.tree, mapping);
    RefMapIntoInputs(src.refs);
    RefMapLastOccurrence(src.refs);
    if Refs(src.tree) <= Elements(src.refs) {
      SubstituteIntoLocalNames(src.tree, mapping);
    }
    var source := PlanSource(xformed, inputs, meta.value, src.text, d.text, probeUnits, conversion);
    if source.Err? {
      return Err(source.error);
    }
    var l := Layout(inputs, mapping, order, meta.value, slots, d.text, source.value.0, source.value.1);
    assert PlannedLayout(l, src, dest, probeUnits, conversion);
    PlannedIsWellFormed(l, src, dest, probeUnits, conversion);
    return Ok(l);
  }

  /** Every planned layout satisfies the node invariant. */
  lemma PlannedIsWellFormed(l: Layout, src: ExprSpec, dest: Option<ExprSpec>,
                            probeUnits: (Expr, map<string, Probe>) -> Option<string>,
                            conversion: (string, string) -> Option<Conversion>)
    requires PlannedLayout(l, src, dest, probeUnits, conversion)
    ensures WellFormed(l)
  {
    RefMapIntoInputs(src.refs);
  }

  /** `get_metadata`: the node publishes no metadata. */
  datatype MetaAnswer = WholeRecord(record: Meta) | NoMeta

  /** The (name, value) pairs the parent's `set` calls store: each value unwrapped. */
  function Stored(pushes: seq<(string, Value)>): seq<(string, Value)>
  {
    seq(|pushes|, i requires 0 <= i < |pushes| => (pushes[i].0, Unwrapped(pushes[i].1)))
  }

  /**
   * A node built from references refs leaves slot `in<i>` unconnected exactly
   * when a later reference repeats `refs[i]`.
   */
  lemma RepeatedReferenceLeavesSlotIdle(node: PseudoComponent, refs: seq<string>, i: nat)
    requires node.Valid() && node.mapping == RefMap(refs) && node.name + ".out0" !in refs && i < |refs|
    ensures (exists p :: p in node.ListConnections(false) && p.0 in node.mapping && p.1 == node.name + "." + InName(i))
            <==> forall j :: i < j < |refs| ==> refs[j] != refs[i]
  {
    node.SlotConnectedIffBound(InName(i));
    SlotMappedIffLastOccurrence(refs, i);
  }

  /**
   * The value a run assigns to the destination, from what the evaluator
   * produced: a quantity is converted to the declared output units (foreign,
   * given as inUnitsOf) or stripped to its magnitude, anything else goes through.
   */
  function Delivered(evaluated: Result<Value, string>, outUnits: Option<string>,
                     inUnitsOf: (real, string, string) -> Result<real, string>)
    : (r: Result<Value, Error>)
    ensures evaluated.Err? ==> r == Err(EvaluationFailed(evaluated.error))
    ensures r.Ok? ==> !r.value.Quantity?
    ensures evaluated.Ok? && !evaluated.value.Quantity? ==> r == Ok(evaluated.value)
    ensures evaluated.Ok? && evaluated.value.Quantity? && outUnits.None? ==>
      r == Ok(Plain(evaluated.value.magnitude))
    ensures evaluated.Ok? && evaluated.value.Quantity? && outUnits.Some? ==>
      var c := inUnitsOf(evaluated.value.magnitude, evaluated.value.units, outUnits.value);
      (r.Ok? <==> c.Ok?) && (c.Ok? ==> r.value == Plain(c.value)) && (c.Err? ==> r.error == ConversionFailed(c.error))
  {
    match evaluated
    case Err(e) => Err(EvaluationFailed(e))
    case Ok(v) =>
      if !v.Quantity? then Ok(v)
      else if outUnits.None? then Ok(Plain(v.magnitude))
      else
        match inUnitsOf(v.magnitude, v.units, outUnits.value)
        case Ok(x) => Ok(Plain(x))
        case Err(e) => Err(ConversionFailed(e))
  }

  /** `[grad[n] for n in inputs]`: KeyError on the first input the gradient lacks. */
  function JacobianRow(grad: map<string, real>, inputs: seq<string>): (r: Result<seq<real>, Error>)
    ensures r.Ok? <==> forall i :: 0 <= i < |inputs| ==> inputs[i] in grad
    ensures r.Ok? ==> |r.value| == |inputs| && forall i :: 0 <= i < |inputs| ==> r.value[i] == grad[inputs[i]]
    ensures r.Err? ==> r.error == MissingKey(inputs[FirstAbsent(inputs, grad.Keys)])
  {
    if inputs == [] then Ok([])
    else if inputs[0] !in grad then Err(MissingKey(inputs[0]))
    else
      match JacobianRow(grad, inputs[1..])
      case Ok(rest) => Ok([grad[inputs[0]]] + rest)
      case Err(e) => Err(e)
  }

  class PseudoComponent {
    const name: string
    const parent: Parent
    const inputs: seq<string>
    const mapping: map<string, string>
    const order: seq<string>               // the keys of mapping, in dictionary order
    const meta: map<string, Meta>
    const outdest: string
    const srcExpr: Expr
    const srcUnits: Option<string>
    var slots: map<string, Value>
    var valid: bool
    var jacobian: Option<seq<seq<real>>>

    /** The node's tables, as construction planned them. */
    ghost function LayoutOf(): Layout
      reads this
    {
      Layout(inputs, mapping, order, meta, slots, outdest, srcExpr, srcUnits)
    }

    ghost predicate Valid()
      reads this
    {
      && WellFormed(LayoutOf())
      && (jacobian.Some? ==> |jacobian.value| == 1 && |jacobian.value[0]| == |inputs|)
    }

    constructor (name: string, parent: Parent, l: Layout)
      requires WellFormed(l)
      ensures Valid()
      ensures this.name == name && this.parent == parent
      ensures inputs == l.inputs && mapping == l.mapping && order == l.order && meta == l.meta
      ensures slots == l.slots && outdest == l.outdest && srcExpr == l.srcExpr && srcUnits == l.srcUnits
      ensures !valid && jacobian.None?
    {
      this.name := name;
      this.parent := parent;
      inputs, mapping, order, meta := l.inputs, l.mapping, l.order, l.meta;
      slots, outdest, srcExpr, srcUnits := l.slots, l.outdest, l.srcExpr, l.srcUnits;
      valid := false;
      jacobian := None;
    }

    /** `PseudoComponent(parent, srcexpr, destexpr)`: draws a name first, then builds or raises. */
    static method Create(parent: Parent, names: NameAllocator, src: ExprSpec, dest: Option<ExprSpec>,
                         probeUnits: (Expr, map<string, Probe>) -> Option<string>,
                         conversion: (string, string) -> Option<Conversion>)
      returns (r: Result<PseudoComponent, Error>)
      requires names.Valid()
      modifies names
      ensures names.Valid() && names.count == old(names.count) + 1
      ensures r.Ok? <==> PlanSucceeds(src, dest, probeUnits, conversion)
      ensures r.Err? ==> PlanFailsWith(r.error, src, dest, probeUnits)
      ensures r.Ok? ==>
        && fresh(r.value) && r.value.Valid()
        && r.value.name == PseudoName(old(names.count)) && r.value.parent == parent
        && PlannedLayout(r.value.LayoutOf(), src, dest, probeUnits, conversion)
        && !r.value.valid && r.value.jacobian.None?
    {
      var name := names.NewName();
      var l := Plan(src, dest, probeUnits, conversion);
      if l.Err? {
        return Err(l.error);
      }
      var node := new PseudoComponent(name, parent, l.value);
      return Ok(node);
    }

    /**
     * `list_connections`: the expanded edges (each reference to its input slot,
     * and `out0` to the destination when there is one), or the hidden view
     * (each reference straight to the destination).
     */
    function ListConnections(hidden: bool): (r: seq<(string, string)>)
      reads this
      requires Valid()
      ensures hidden ==> |r| == (if outdest != "" then |mapping| else 0)
      ensures hidden ==> forall p :: p in r <==> outdest != "" && p.0 in mapping && p.1 == outdest
      ensures !hidden ==> |r| == |mapping| + (if outdest != "" then 1 else 0)
      ensures !hidden ==> forall p :: p in r <==>
        (p.0 in mapping && p.1 == name + "." + mapping[p.0]) || (outdest != "" && p == (name + ".out0", outdest))
    {
      DistinctCardinality(order);
      assert |order| == |mapping|;
      if hidden then
        if outdest != "" then
          var edges := seq(|order|, i requires 0 <= i < |order| => (order[i], outdest));
          assert forall p :: p in edges <==> p.0 in mapping && p.1 == outdest by {
            forall p: (string, string) | p.0 in mapping && p.1 == outdest
              ensures p in edges
            {
              var i :| 0 <= i < |order| && order[i] == p.0;
              assert edges[i] == p;
            }
          }
          edges
        else []
      else
        var edges := seq(|order|, i requires 0 <= i < |order| => (order[i], name + "." + mapping[order[i]]));
        assert forall p :: p in edges <==> p.0 in mapping && p.1 == name + "." + mapping[p.0] by {
          forall p: (string, string) | p.0 in mapping && p.1 == name + "." + mapping[p.0]
            ensures p in edges
          {
            var i :| 0 <= i < |order| && order[i] == p.0;
            assert edges[i] == p;
          }
        }
        edges + (if outdest != "" then [(name + ".out0", outdest)] else [])
    }

    /**
     * An input slot is the target of an expanded edge from a reference exactly
     * when some reference is bound to it (the node's own output is not one of
     * its references).
     */
    lemma SlotConnectedIffBound(slot: string)
      requires Valid() && name + ".out0" !in mapping
      ensures (exists p :: p in ListConnections(false) && p.0 in mapping && p.1 == name + "." + slot)
              <==> slot in mapping.Values
    {
      var edges := ListConnections(false);
      if slot in mapping.Values {
        var k :| k in mapping && mapping[k] == slot;
        var e := (k, name + "." + mapping[k]);
        assert e.0 in mapping && e.1 == name + "." + mapping[e.0];
        assert e in edges;
      }
      if exists p :: p in edges && p.0 in mapping && p.1 == name + "." + slot {
        var p :| p in edges && p.0 in mapping && p.1 == name + "." + slot;
        SlotPathInjective(mapping[p.0], slot);
      }
    }

    lemma SlotPathInjective(a: string, b: string)
      requires name + "." + a == name + "." + b
      ensures a == b
    {
      assert (name + "." + a)[|name| + 1..] == a;
      assert (name + "." + b)[|name| + 1..] == b;
    }

    /**
     * The hidden view collapses the expanded one: each reference that feeds an
     * input slot is shown feeding the destination instead.
     */
    lemma HiddenCollapsesExpanded()
      requires Valid() && outdest != ""
      ensures forall p :: p in ListConnections(true) <==>
        p.1 == outdest && exists q :: q in ListConnections(false) && q.0 in mapping && q.0 == p.0
    {
      forall p: (string, string) | p.1 == outdest && p.0 in mapping
        ensures exists q :: q in ListConnections(false) && q.0 in mapping && q.0 == p.0
      {
        assert (p.0, name + "." + mapping[p.0]) in ListConnections(false);
      }
    }

    /** `make_connections`: one `_connect` on the parent per expanded edge, in listing order. */
    method MakeConnections()
      requires Valid()
      modifies parent
      ensures parent.calls == old(parent.calls) + ConnectCalls(ListConnections(false))
    {
      var edges := ListConnections(false);
      for i := 0 to |edges|
        invariant parent.calls == old(parent.calls) + ConnectCalls(edges[..i])
      {
        ConnectCallsSnoc(edges, i);
        parent.Connect(edges[i].0, edges[i].1);
      }
      assert edges[..|edges|] == edges;
    }

    /** `remove_connections`: one `disconnect` on the parent per expanded edge. */
    method RemoveConnections()
      requires Valid()
      modifies parent
      ensures parent.calls == old(parent.calls) + DisconnectCalls(ListConnections(false))
    {
      var edges := ListConnections(false);
      for i := 0 to |edges|
        invariant parent.calls == old(parent.calls) + DisconnectCalls(edges[..i])
      {
        DisconnectCallsSnoc(edges, i);
        parent.Disconnect(edges[i].0, edges[i].1);
      }
      assert edges[..|edges|] == edges;
    }

    method InvalidateDeps()
      modifies this`valid
      ensures !valid
    {
      valid := false;
    }

    /** `connect(src, dest)`: a new edge into the node makes it stale. */
    method Connect(src: string, dest: string)
      modifies this`valid
      ensures !valid
    {
      valid := false;
    }

    /**
     * `run`: when stale, asks the parent for fresh inputs, which the parent
     * pushes back through `set` (the pushes are given); then evaluates the
     * source over the slots (foreign, given as evaluate), assigns the delivered
     * value to the destination and marks the node valid. A failure of the
     * evaluation leaves the flag as it was and the pulled inputs in place.
     */
    method Run(pushes: seq<(string, Value)>,
               evaluate: (Expr, map<string, Value>) -> Result<Value, string>,
               inUnitsOf: (real, string, string) -> Result<real, string>)
      returns (r: Result<(), Error>)
      requires Valid()
      modifies this, parent
      ensures Valid() && jacobian == old(jacobian)
      ensures parent.calls == old(parent.calls) + (if old(valid) then [] else [UpdateInputsCall(name)])
      ensures var pulled := if old(valid) then old(slots) else Overlay(old(slots), Stored(pushes));
        var out := Delivered(evaluate(srcExpr, pulled), Units(meta["out0"]), inUnitsOf);
        && (r.Ok? <==> out.Ok?)
        && (out.Err? ==> r.error == out.error && valid == old(valid) && slots == pulled)
        && (out.Ok? ==> valid && slots == if outdest != "" then pulled["out0" := Unwrapped(out.value)] else pulled)
    {
      if !valid {
        parent.UpdateInputs(name);
        for i := 0 to |pushes|
          invariant Valid() && valid == old(valid) && jacobian == old(jacobian)
          invariant slots == Overlay(old(slots), Stored(pushes[..i]))
          invariant parent.calls == old(parent.calls) + [UpdateInputsCall(name)]
        {
          var next := Stored(pushes[..i + 1]);
          assert next == Stored(pushes[..i]) + [(pushes[i].0, Unwrapped(pushes[i].1))];
          assert next[..i] == Stored(pushes[..i]);
          var stored := Set(pushes[i].0, pushes[i].1, None);
        }
        assert pushes[..|pushes|] == pushes;
      }
      var out := Delivered(evaluate(srcExpr, slots), Units(meta["out0"]), inUnitsOf);
      if out.Err? {
        return Err(out.error);
      }
      if outdest != "" {
        slots := slots["out0" := Unwrapped(out.value)];
      }
      valid := true;
      return Ok(());
    }

    /** `update_outputs(names)`: a full run whatever the names. */
    method UpdateOutputs(outputs: seq<string>, pushes: seq<(string, Value)>,
                         evaluate: (Expr, map<string, Value>) -> Result<Value, string>,
                         inUnitsOf: (real, string, string) -> Result<real, string>)
      returns (r: Result<(), Error>)
      requires Valid()
      modifies this, parent
      ensures Valid() && jacobian == old(jacobian)
      ensures parent.calls == old(parent.calls) + (if old(valid) then [] else [UpdateInputsCall(name)])
      ensures var pulled := if old(valid) then old(slots) else Overlay(old(slots), Stored(pushes));
        var out := Delivered(evaluate(srcExpr, pulled), Units(meta["out0"]), inUnitsOf);
        && (r.Ok? <==> out.Ok?)
        && (out.Err? ==> r.error == out.error && valid == old(valid) && slots == pulled)
        && (out.Ok? ==> valid && slots == if outdest != "" then pulled["out0" := Unwrapped(out.value)] else pulled)
    {
      r := Run(pushes, evaluate, inUnitsOf);
    }

    /** `get(name, index)`: indexed access is refused with RuntimeError. */
    function Get(attr: string, index: Option<int>): (r: Result<Value, Error>)
      reads this
      ensures index.Some? ==> r == Err(IndexUnsupported(GetAccess)) && ClassOf(r.error) == RuntimeErrorClass
      ensures index.None? ==> (r.Ok? <==> attr in slots)
      ensures r.Ok? ==> r.value == slots[attr]
      ensures index.None? && r.Err? ==> r.error == NoSuchAttribute(attr)
    {
      if index.Some? then Err(IndexUnsupported(GetAccess))
      else if attr in slots then Ok(slots[attr])
      else Err(NoSuchAttribute(attr))
    }

    /** `get_wrapped_attr(name, index)`: the same lookup with its own refusal. */
    function GetWrappedAttr(attr: string, index: Option<int>): (r: Result<Value, Error>)
      reads this
      ensures index.Some? ==> r == Err(IndexUnsupported(WrappedAccess)) && ClassOf(r.error) == RuntimeErrorClass
      ensures index.None? ==> r == Get(attr, None)
    {
      if index.Some? then Err(IndexUnsupported(WrappedAccess)) else Get(attr, None)
    }

    /**
     * `set(path, value, index)`: indexed access is refused with ValueError and
     * nothing changes; otherwise the unwrapped value is stored, so a later
     * `get` returns it. The validity flag is not touched.
     */
    method Set(path: string, value: Value, index: Option<int>) returns (r: Result<(), Error>)
      requires Valid()
      modifies this`slots
      ensures Valid()
      ensures index.Some? ==>
        r == Err(IndexUnsupported(SetAccess)) && ClassOf(r.error) == ValueErrorClass && slots == old(slots)
      ensures index.None? ==> r.Ok? && slots == old(slots)[path := Unwrapped(value)]
      ensures index.None? ==> Get(path, None) == Ok(Unwrapped(value))
    {
      if index.Some? {
        return Err(IndexUnsupported(SetAccess));
      }
      slots := slots[path := Unwrapped(value)];
      return Ok(());
    }

    /** `get_metadata(traitpath, metaname)`: an empty record, or None for a named item. */
    function GetMetadata(traitpath: string, metaname: Option<string>): (r: MetaAnswer)
      ensures r.WholeRecord? <==> metaname.None?
      ensures r.WholeRecord? ==> r.record == map[]
    {
      if metaname.None? then WholeRecord(map[]) else NoMeta
    }

    /** `get_valid(names)`: the flag, once per name asked about. */
    function GetValid(names: seq<string>): (r: seq<bool>)
      reads this
      ensures |r| == |names|
      ensures forall i :: 0 <= i < |r| ==> r[i] == valid
    {
      var v := valid;
      seq(|names|, i requires 0 <= i < |names| => v)
    }

    function IsValid(): (r: bool)
      reads this
      ensures r <==> valid
    {
      valid
    }

    /**
     * `linearize`: the Jacobian row of the gradient the evaluator reports
     * (foreign, given as grad), in input order.
     */
    method Linearize(grad: map<string, real>) returns (r: Result<(), Error>)
      requires Valid()
      modifies this`jacobian
      ensures Valid()
      ensures var row := JacobianRow(grad, inputs);
        && (r.Ok? <==> row.Ok?)
        && (row.Ok? ==> jacobian == Some([row.value]))
        && (row.Err? ==> r.error == row.error && jacobian == old(jacobian))
      ensures r.Ok? ==> ProvideJ() == Ok((inputs, ["out0"], [JacobianRow(grad, inputs).value]))
    {
      var row := JacobianRow(grad, inputs);
      if row.Err? {
        return Err(row.error);
      }
      jacobian := Some([row.value]);
      return Ok(());
    }

    /**
     * `calc_derivatives(first, second)`: linearizes when first is set, and
     * then refuses second derivatives with RuntimeError.
     */
    method CalcDerivatives(first: bool, second: bool, grad: map<string, real>) returns (r: Result<(), Error>)
      requires Valid()
      modifies this`jacobian
      ensures Valid()
      ensures var row := JacobianRow(grad, inputs);
        && (first && row.Ok? ==> jacobian == Some([row.value]))
        && (!first || row.Err? ==> jacobian == old(jacobian))
        && (first && row.Err? ==> r == Err(row.error))
        && (!(first && row.Err?) ==>
              if second then r == Err(SecondDerivativesUnsupported(name)) && ClassOf(r.error) == RuntimeErrorClass
              else r.Ok?)
    {
      if first {
        r := Linearize(grad);
        if r.Err? {
          return r;
        }
      }
      if second {
        return Err(SecondDerivativesUnsupported(name));
      }
      return Ok(());
    }

    /** `provideJ`: the input names, `('out0',)`, and the row; AttributeError before any linearize. */
    function ProvideJ(): (r: Result<(seq<string>, seq<string>, seq<seq<real>>), Error>)
      reads this
      requires Valid()
      ensures r.Err? <==> jacobian.None?
      ensures r.Err? ==> r.error == NotLinearized && ClassOf(r.error) == AttributeErrorClass
      ensures r.Ok? ==>
        && r.value.0 == inputs && r.value.1 == ["out0"]
        && r.value.2 == jacobian.value
        && |r.value.2| == 1 && |r.value.2[0]| == |r.value.0|
    {
      match jacobian
      case None => Err(NotLinearized)
      case Some(j) => Ok((inputs, ["out0"], j))
    }
  }
}
