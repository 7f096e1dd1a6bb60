# Pseudo components of the OpenMDAO dependency graph

OpenMDAO connects variables through expressions such as `a.x*2 + b.y[1]`. Each
such connection becomes a *pseudo component*: a synthetic graph node with one
input slot `in<i>` per reference of the source expression and one output slot
`out0` that feeds the destination. When the destination declares units, the
node rewrites its source expression so that the unit conversion happens inside
the expression tree.

This project models that node in Dafny:

- **names** (`Names`): the process-wide `_pseudo_<n>` name allocator, the local
  input names `in<i>`, and `_get_varname`.
- **reference mapper** (`References`): the constructor loop that binds each
  reference to its slot, the key order of the resulting table, and
  `_invert_dict`.
- **metadata** (`Metadata`): the metadata tables, their re-keying by local name,
  and the unit probes the constructor evaluates the source with.
- **unit rewrite** (`Expressions`): expressions as a tagged tree, the renaming of
  references, and `unit_transform`, together with its meaning under evaluation.
- **node** (`PseudoComp`): construction (`Plan`, `PseudoComponent.Create`),
  connection listing, the parent-call trace of `make_connections` and
  `remove_connections`, the validity flag, slot access, and the Jacobian row.
- **errors** (`Outcomes`): every raise site is an `Error` constructor, and
  `ClassOf` names the Python exception class of each raise site. The probe
  failure stands for whatever the foreign evaluation raises, so its own class is
  not kept.

Foreign calls are parameters of the members that make them:

- the unit library's conversion-tuple lookup (`conversion`);
- the evaluation of the source on unit-only probe values (`probeUnits`);
- the evaluator's `evaluate` and `evaluate_gradient` (`evaluate`, `grad`);
- `PhysicalQuantity.in_units_of` (`inUnitsOf`).

The owning scope is a `Parent` object that records the calls it receives.

Three points of the code's behaviour shape the model:

- **Meaning of the conversion tuple.** The unit library's tuple `(scale, offset)`
  converts as `(from + offset) * scale`. The rewrite `node*scale + scale*offset`
  therefore performs the conversion (`Expressions.UnitTransformEval`).
- **`set` and the validity flag.** `set` does not touch the validity flag.
  Only `invalidate_deps` and `connect` clear it, and only a successful `run`
  sets it.
- **One slot per occurrence.** Every occurrence of a reference gets its own slot.
  The table binds a repeated reference to its last slot, so the earlier slots are
  never connected (`PseudoComp.RepeatedReferenceLeavesSlotIdle`).

## Model

| member | source | states |
|---|---|---|
| Names.NameAllocator.constructor | openmdao.main/src/openmdao/main/pseudocomp.py:13-14 | the counter starts at zero with nothing issued |
| Names.NameAllocator.NewName | openmdao.main/src/openmdao/main/pseudocomp.py:16-21 | returns `_pseudo_<count>`, advances the counter by exactly one, and the name differs from every name issued before |
| Names.PseudoNameInjective | openmdao.main/src/openmdao/main/pseudocomp.py:19 | two counter values give the same name only if they are equal |
| Names.Decimal | openmdao.main/src/openmdao/main/pseudocomp.py:19 | the `%d` rendering of a natural number: at least one character, all of them digits |
| Names.PseudoNameParses | openmdao.main/src/openmdao/main/pseudocomp.py:19 | a node name is `_pseudo_` followed by a rendering that reads back as the counter value |
| Names.PseudoNamesDistinct | openmdao.main/src/openmdao/main/pseudocomp.py:16-21 | names drawn at distinct counter values are pairwise distinct |
| Names.InNameParses | openmdao.main/src/openmdao/main/pseudocomp.py:81 | a slot name is `in` followed by a rendering that reads back as the position |
| Names.ParseDecimalInverts | openmdao.main/src/openmdao/main/pseudocomp.py:19 | reading the `%d` rendering back gives the number, so the rendering is injective |
| Names.InNameInjective | openmdao.main/src/openmdao/main/pseudocomp.py:81 | `in<a>` equals `in<b>` exactly when a equals b |
| Names.InNameIsNotOut | openmdao.main/src/openmdao/main/pseudocomp.py:81 | no input name is `out0` |
| Names.InputNames | openmdao.main/src/openmdao/main/pseudocomp.py:80-82 | the input list has n entries, entry i being `in<i>` |
| Names.InputNamesDistinct | openmdao.main/src/openmdao/main/pseudocomp.py:80-82 | the input names are pairwise distinct |
| Names.Find | openmdao.main/src/openmdao/main/pseudocomp.py:24 | `str.find`: -1 exactly when the character is absent, otherwise its first position |
| Names.VarName | openmdao.main/src/openmdao/main/pseudocomp.py:23-27 | the whole name when it holds no `[`, otherwise the prefix up to the first `[`; the result never holds `[` |
| Names.VarNameIdempotent | openmdao.main/src/openmdao/main/pseudocomp.py:23-27 | applying `_get_varname` twice equals applying it once |
| Expressions.Substitute | openmdao.main/src/openmdao/main/pseudocomp.py:107 | the renamed tree mentions exactly the renamings of the original references |
| Expressions.SubstituteIntoLocalNames | openmdao.main/src/openmdao/main/pseudocomp.py:107 | when every reference is in the table, the renamed source mentions only local names |
| Expressions.SubstituteEval | openmdao.main/src/openmdao/main/pseudocomp.py:107 | the renamed tree evaluated over the slots equals the original evaluated over the values seen through the table |
| Expressions.UnitTransform | openmdao.main/src/openmdao/main/pseudocomp.py:29-42 | fails, naming both units, exactly when there is no conversion tuple; otherwise `node*scale`, plus `scale*offset` when the offset is non-zero; the original node stays as the leftmost operand and the references are unchanged |
| Expressions.UnitTransformEval | openmdao.main/src/openmdao/main/pseudocomp.py:38-41 | the rewritten tree evaluates to the original value converted by the tuple |
| References.LastIndex | openmdao.main/src/openmdao/main/pseudocomp.py:80-85 | the last position of a reference, with no later occurrence |
| References.RefMap | openmdao.main/src/openmdao/main/pseudocomp.py:83 | the reference table has exactly the references as keys |
| References.RefMapLastOccurrence | openmdao.main/src/openmdao/main/pseudocomp.py:80-85 | every reference is bound to `in<j>`, j being its last occurrence |
| References.RefMapIntoInputs | openmdao.main/src/openmdao/main/pseudocomp.py:80-85 | every value of the reference table is one of the inputs |
| References.RefMapInjective | openmdao.main/src/openmdao/main/pseudocomp.py:80-85 | distinct references are bound to distinct slots |
| References.SlotMappedIffLastOccurrence | openmdao.main/src/openmdao/main/pseudocomp.py:80-85 | slot `in<i>` is bound exactly when no later reference repeats `refs[i]` |
| References.KeyOrder | openmdao.main/src/openmdao/main/pseudocomp.py:83 | the dictionary order of the table lists each reference once, and lists them all |
| References.Bases | openmdao.main/src/openmdao/main/pseudocomp.py:84 | the base name of each reference, position by position |
| References.MapReferences | openmdao.main/src/openmdao/main/pseudocomp.py:74-85 | the loop builds exactly the input list, the reference table with its key order, the base-name table, and one slot per input |
| References.InvertDict | openmdao.main/src/openmdao/main/pseudocomp.py:54-58 | keys are the dict's values; each maps back to a key bound to it; an injective dict is inverted exactly |
| References.FirstAbsent | openmdao.main/src/openmdao/main/pseudocomp.py:117-118 | the first position whose key has no entry, where a loop over the keys raises KeyError |
| Metadata.OverlayLookup | openmdao.main/src/openmdao/main/pseudocomp.py:101-102 | after storing the pairs in turn, a name carries the metadata of its last pair, else the table's |
| Metadata.LastNamed | openmdao.main/src/openmdao/main/pseudocomp.py:101-102 | the last pair naming a name |
| Metadata.Overlay | openmdao.main/src/openmdao/main/pseudocomp.py:101-102 | storing pairs into a table gives exactly its keys plus the pairs' names |
| Metadata.Record | openmdao.main/src/openmdao/main/pseudocomp.py:77-78 | the loop stores the pairs in turn, later pairs overwriting earlier ones |
| Metadata.Relabel | openmdao.main/src/openmdao/main/pseudocomp.py:96-99 | succeeds exactly when every source name is a base name; under an injective base-name table the result is exactly the re-keyed table `Relabeled`; on failure it names a source name without a base-name entry |
| Metadata.Relabeled | openmdao.main/src/openmdao/main/pseudocomp.py:97-99 | the re-keyed table has exactly the local names as keys, and under an injective map each holds its source entry |
| Metadata.ProbeOf | openmdao.main/src/openmdao/main/pseudocomp.py:118-122 | a unit-tagged zero exactly when the metadata names a non-empty unit |
| Metadata.Units | openmdao.main/src/openmdao/main/pseudocomp.py:110 | `.get('units')`: present exactly when the record has a `units` entry, and then that entry |
| Metadata.UnitProbes | openmdao.main/src/openmdao/main/pseudocomp.py:114-122 | KeyError on the first input without metadata; otherwise one probe per input |
| PseudoComp.Unwrapped | openmdao.main/src/openmdao/main/pseudocomp.py:216-221 | wrappers and quantities are stored as their magnitude, anything else as it is |
| PseudoComp.DummyExpr | openmdao.main/src/openmdao/main/pseudocomp.py:44-52 | the stand-in destination has empty text, the one reference `''`, and a metadata pair naming that reference |
| PseudoComp.Target | openmdao.main/src/openmdao/main/pseudocomp.py:67-68 | construction works with the given destination, and with the stand-in when none is given |
| PseudoComp.NoDestinationDeclaresNoUnits | openmdao.main/src/openmdao/main/pseudocomp.py:96-110 | without a destination the metadata step passes whenever every source name is a base name, and `out0` declares no units, so no unit transform is made |
| PseudoComp.Parent.Connect | openmdao.main/src/openmdao/main/pseudocomp.py:176 | the parent records one `_connect` call |
| PseudoComp.Parent.Disconnect | openmdao.main/src/openmdao/main/pseudocomp.py:183 | the parent records one `disconnect` call |
| PseudoComp.Parent.UpdateInputs | openmdao.main/src/openmdao/main/pseudocomp.py:193 | the parent records one `update_inputs` call for the node |
| PseudoComp.PlanMeta | openmdao.main/src/openmdao/main/pseudocomp.py:96-105 | succeeds exactly when every source name is a base name and the destination has a reference whose base name has metadata; otherwise KeyError naming a missing name, IndexError without a reference, or KeyError naming the base name; on success, under an injective base-name table, exactly the planned metadata (`PlannedMeta`) |
| PseudoComp.PlanSource | openmdao.main/src/openmdao/main/pseudocomp.py:110-136 | succeeds exactly when no output units are declared, or every input has metadata, the probe yields units and a conversion exists; the source units are the probe's answer and the source is their unit transform; the failures are KeyError on the first input without metadata, the probe's failure, and a TypeError naming both texts and both units |
| PseudoComp.BaseMapIntoInputs | openmdao.main/src/openmdao/main/pseudocomp.py:84-99 | the base-name table is injective, maps into the inputs, and never onto `out0` |
| PseudoComp.FreshSlots | openmdao.main/src/openmdao/main/pseudocomp.py:85-92 | a new node has exactly one slot per input plus `out0`, each holding None |
| PseudoComp.Plan | openmdao.main/src/openmdao/main/pseudocomp.py:66-136 | succeeds exactly when `PlanSucceeds` holds (one destination reference, the metadata step and the units step pass); on success the layout is exactly the planned one (`PlannedLayout`: inputs, reference table and order, slots all None, planned metadata, the renamed source unit-transformed from the probed units) and well-formed; a failure raises the error of the first step that fails, in `__init__`'s order (`PlanFailsWith`) |
| PseudoComp.RepeatedReferenceLeavesSlotIdle | openmdao.main/src/openmdao/main/pseudocomp.py:80-85 | slot `in<i>` of a node built from refs is fed by an edge from a reference exactly when no later reference repeats `refs[i]` (the node's own `out0` path not being a reference) |
| PseudoComp.PlannedIsWellFormed | openmdao.main/src/openmdao/main/pseudocomp.py:74-92 | every planned layout satisfies the node invariant: the order lists every reference once, table values are inputs, all inputs and `out0` have slots |
| PseudoComp.Delivered | openmdao.main/src/openmdao/main/pseudocomp.py:195-202 | an evaluator failure propagates; a plain value goes through; a quantity becomes its magnitude, converted to the output units when they are declared, and a failed conversion propagates |
| PseudoComp.JacobianRow | openmdao.main/src/openmdao/main/pseudocomp.py:258 | one entry per input in input order, taken from the gradient; KeyError on the first input the gradient lacks |
| PseudoComp.PseudoComponent.constructor | openmdao.main/src/openmdao/main/pseudocomp.py:66-75 | the node holds the planned tables, is not valid and has no Jacobian |
| PseudoComp.PseudoComponent.Create | openmdao.main/src/openmdao/main/pseudocomp.py:66-136 | draws exactly one name from the allocator; succeeds exactly when `PlanSucceeds` holds, and then returns a fresh node with that name whose tables are the planned layout, not valid and without J; otherwise it fails with the error `PlanFailsWith` prescribes |
| PseudoComp.PseudoComponent.ListConnections | openmdao.main/src/openmdao/main/pseudocomp.py:154-169 | expanded: one `(ref, name.in_k)` per table entry, plus `(name.out0, dest)` exactly when there is a destination; hidden: one `(ref, dest)` per reference, or nothing without a destination |
| PseudoComp.PseudoComponent.SlotConnectedIffBound | openmdao.main/src/openmdao/main/pseudocomp.py:165-166 | an input slot is fed by an edge from a reference exactly when some reference is bound to it |
| PseudoComp.PseudoComponent.HiddenCollapsesExpanded | openmdao.main/src/openmdao/main/pseudocomp.py:159-168 | the hidden listing holds exactly the references of the expanded listing, each sent to the destination |
| PseudoComp.PseudoComponent.MakeConnections | openmdao.main/src/openmdao/main/pseudocomp.py:171-176 | the parent receives one `_connect` per expanded edge, in listing order, and nothing else |
| PseudoComp.PseudoComponent.RemoveConnections | openmdao.main/src/openmdao/main/pseudocomp.py:178-183 | the parent receives one `disconnect` per expanded edge, in listing order, and nothing else |
| PseudoComp.PseudoComponent.InvalidateDeps | openmdao.main/src/openmdao/main/pseudocomp.py:185-186 | the node is left not valid |
| PseudoComp.PseudoComponent.Connect | openmdao.main/src/openmdao/main/pseudocomp.py:188-189 | the node is left not valid |
| PseudoComp.PseudoComponent.Run | openmdao.main/src/openmdao/main/pseudocomp.py:191-221 | `update_inputs` is called exactly when the node was not valid, and the values the parent then pushes are stored through `set` before evaluation; on success `out0` holds, through `set`, the unwrapped value delivered from the pulled slots and the node is valid; on failure the flag is unchanged and the pulled inputs stay |
| PseudoComp.PseudoComponent.UpdateOutputs | openmdao.main/src/openmdao/main/pseudocomp.py:205-206 | the same effect as a run, whatever the names |
| PseudoComp.PseudoComponent.Get | openmdao.main/src/openmdao/main/pseudocomp.py:208-211 | an index raises RuntimeError; otherwise returns the slot's value, or fails for a slot that does not exist |
| PseudoComp.PseudoComponent.GetWrappedAttr | openmdao.main/src/openmdao/main/pseudocomp.py:223-227 | an index raises RuntimeError; otherwise the same answer as `get` |
| PseudoComp.PseudoComponent.Set | openmdao.main/src/openmdao/main/pseudocomp.py:213-221 | an index raises ValueError and changes nothing; otherwise stores the unwrapped value, so a later `get` returns it |
| PseudoComp.PseudoComponent.GetMetadata | openmdao.main/src/openmdao/main/pseudocomp.py:229-238 | an empty record when no item is named, otherwise nothing |
| PseudoComp.PseudoComponent.GetValid | openmdao.main/src/openmdao/main/pseudocomp.py:240-241 | one copy of the flag per name asked about |
| PseudoComp.PseudoComponent.IsValid | openmdao.main/src/openmdao/main/pseudocomp.py:243-244 | the flag |
| PseudoComp.PseudoComponent.Linearize | openmdao.main/src/openmdao/main/pseudocomp.py:255-258 | J becomes the single gradient row in input order, which `provideJ` then returns; a missing gradient entry raises KeyError and leaves J as it was |
| PseudoComp.PseudoComponent.CalcDerivatives | openmdao.main/src/openmdao/main/pseudocomp.py:249-253 | linearizes when asked for first derivatives, so a gradient lacking an input raises KeyError first; otherwise second derivatives raise RuntimeError |
| PseudoComp.PseudoComponent.ProvideJ | openmdao.main/src/openmdao/main/pseudocomp.py:260-261 | AttributeError before any linearization; otherwise the inputs, `('out0',)` and exactly the stored J, a single row with one entry per input |

## Left out

- Physical-unit algebra (`PhysicalQuantity`, `UnitsOnlyPQ`, `conversion_tuple_to`, `in_units_of`) is a foreign library over floating point. It enters as the parameters `conversion`, `probeUnits` and `inUnitsOf`. An unknown unit name is folded into "no conversion".
- The expression machinery is foreign and reduced to the tree `Expr` and `Substitute`. This covers `ast.parse`, `transform_expression`, `print_node`, `eval` with `_expr_dict`, and `ConnectedExprEvaluator`. The destination rewrite of line 108 and `ast.copy_location` are not modelled.
- Floating point is modelled as `real`, so rounding is not captured.
- The `RLock` around the name counter exists only for concurrency; the counter is a sequential field.
- `get_pathname` and `set_itername` only join names or store a tag that nothing here reads, so they are not modelled.
- The `_eqn` debug string (lines 141-146) is diagnostics only. `_invert_dict`, which it uses, is modelled.
- The iteration order of `_mapping` is modelled as first-insertion order (`KeyOrder`). The listing properties are stated on membership and length, so they hold for any order.
- Metadata.Relabel: the loop takes the source names in an arbitrary order, so a failure (of construction too) names some source name without a base-name entry, not necessarily the first in metadata order.
- References.InvertDict: the loop takes the keys in an arbitrary order, so for a value shared by several keys the kept key is one of them, not necessarily the last in dictionary order.
- PseudoComp.PseudoComponent.Run: the values the parent pushes during `update_inputs` are decided by the parent, so they are a parameter (`pushes`). They are stored through `set` before the evaluation.
- PseudoComp.PseudoComponent.Run: when there is no destination (`DummyExpr`), the delivered value is discarded instead of being assigned through the evaluator of an empty expression.
- PseudoComp.PseudoComponent.Get: `getattr` is limited to the slots; the node's other Python attributes are not modelled.
- PseudoComp.PseudoComponent.ProvideJ: the numpy array `J` is a sequence of rows. Before any linearization, the missing attribute is reported as an error rather than through Python attribute lookup.
- The exceptions raised by the probe evaluation of line 124 are reduced to "the probe yields no units", and their exception class is lost. This also covers a result without a `unit` attribute at line 125.
