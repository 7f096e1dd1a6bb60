/**
 * Metadata tables: building them from (name, metadata) lists, re-keying them
 * by local name, and the unit-tagged zero values the constructor evaluates the
 * source with to learn its units.
 */
module Metadata {
  import opened Outcomes
  import opened References

  /** A metadata record: property name to value; the property "units" names a unit. */
  type Meta = map<string, string>

  /** `meta.get('units')`: the declared unit, or None when the record declares none. */
  function Units(m: Meta): (u: Option<string>)
    ensures u.Some? <==> "units" in m
    ensures u.Some? ==> u.value == m["units"]
  {
    if "units" in m then Some(m["units"]) else None
  }

  /**
   * The table after storing each (name, value) pair in turn: later pairs
   * overwrite, and the names of the table and of the pairs are all present.
   */
  function Overlay<V>(t: map<string, V>, pairs: seq<(string, V)>): (r: map<string, V>)
    ensures r.Keys == t.Keys + PairNames(pairs)
  {
    if pairs == [] then t
    else
      var p, x := pairs[..|pairs| - 1], pairs[|pairs| - 1];
      assert pairs == p + [x];
      assert PairNames(pairs) == PairNames(p) + {x.0};
      Overlay(t, p)[x.0 := x.1]
  }

  /** The names a list of pairs mentions. */
  function PairNames<V>(pairs: seq<(string, V)>): set<string>
  {
    set i | 0 <= i < |pairs| :: pairs[i].0
  }

  /**
   * After the overlay a name is present when the table or some pair has it,
   * and it carries the metadata of its last pair, else the table's.
   */
  lemma {:induction false} OverlayLookup<V>(t: map<string, V>, pairs: seq<(string, V)>, name: string)
    ensures name in Overlay(t, pairs) <==> name in t || name in PairNames(pairs)
    ensures name in Overlay(t, pairs) ==>
      Overlay(t, pairs)[name] ==
        if exists i :: 0 <= i < |pairs| && pairs[i].0 == name
        then pairs[LastNamed(pairs, name)].1
        else t[name]
  {
    if pairs != [] {
      var p, x := pairs[..|pairs| - 1], pairs[|pairs| - 1];
      assert pairs == p + [x];
      OverlayLookup(t, p, name);
      assert PairNames(pairs) == PairNames(p) + {x.0};
      if name != x.0 && exists i :: 0 <= i < |pairs| && pairs[i].0 == name {
        var i :| 0 <= i < |pairs| && pairs[i].0 == name;
        assert p[i].0 == name;
      }
    }
  }

  /** The last position at which a pair names name. */
  function LastNamed<V>(pairs: seq<(string, V)>, name: string): (k: nat)
    requires exists i :: 0 <= i < |pairs| && pairs[i].0 == name
    ensures k < |pairs| && pairs[k].0 == name
    ensures forall j :: k < j < |pairs| ==> pairs[j].0 != name
  {
    if pairs[|pairs| - 1].0 == name then |pairs| - 1
    else
      var i :| 0 <= i < |pairs| && pairs[i].0 == name;
      assert pairs[..|pairs| - 1][i].0 == name;
      LastNamed(pairs[..|pairs| - 1], name)
  }

  /** `for name, meta in expr.get_metadata(): table[name] = meta`. */
  method Record(t: map<string, Meta>, pairs: seq<(string, Meta)>) returns (r: map<string, Meta>)
    ensures r == Overlay(t, pairs)
  {
    r := t;
    for i := 0 to |pairs|
      invariant r == Overlay(t, pairs[..i])
    {
      assert pairs[..i + 1][..i] == pairs[..i];
      r := r[pairs[i].0 := pairs[i].1];
    }
    assert pairs[..|pairs|] == pairs;
  }

  /** The local names of the source names. */
  function Image(meta: map<string, Meta>, varmap: map<string, string>): set<string>
    requires meta.Keys <= varmap.Keys
  {
    set k | k in meta :: varmap[k]
  }

  /**
   * The source table re-keyed by local name. Under an injective map every
   * local name comes from exactly one source name, so the table is determined.
   */
  ghost function Relabeled(meta: map<string, Meta>, varmap: map<string, string>): (r: map<string, Meta>)
    requires meta.Keys <= varmap.Keys
    ensures r.Keys == set k | k in meta :: varmap[k]
    ensures Injective(varmap) ==> forall k :: k in meta ==> r[varmap[k]] == meta[k]
  {
    var r := map v | v in Image(meta, varmap) :: var k :| k in meta && varmap[k] == v; meta[k];
    assert Injective(varmap) ==> forall k :: k in meta ==> r[varmap[k]] == meta[k] by {
      if Injective(varmap) {
        forall k | k in meta
          ensures r[varmap[k]] == meta[k]
        {
          assert varmap[k] in Image(meta, varmap);
        }
      }
    }
    r
  }

  /**
   * `newmeta[varmap[key]] = val` for every entry of the source table: fails
   * with KeyError on a name that no reference has as its base name.
   */
  method Relabel(meta: map<string, Meta>, varmap: map<string, string>)
    returns (r: Result<map<string, Meta>, Error>)
    ensures r.Ok? <==> meta.Keys <= varmap.Keys
    ensures r.Err? ==> r.error.MissingKey? && r.error.key in meta && r.error.key !in varmap
    ensures r.Ok? ==> r.value.Keys == set k | k in meta :: varmap[k]
    ensures r.Ok? && Injective(varmap) ==> forall k :: k in meta ==> r.value[varmap[k]] == meta[k]
    ensures r.Ok? && Injective(varmap) ==> r.value == Relabeled(meta, varmap)
  {
    var out: map<string, Meta> := map[];
    var rest := meta.Keys;
    while rest != {}
      invariant rest <= meta.Keys
      invariant meta.Keys - rest <= varmap.Keys
      invariant out.Keys == set k | k in meta.Keys - rest :: varmap[k]
      invariant Injective(varmap) ==> forall k :: k in meta.Keys - rest ==> out[varmap[k]] == meta[k]
      decreases rest
    {
      var k :| k in rest;
      if k !in varmap {
        return Err(MissingKey(k));
      }
      out := out[varmap[k] := meta[k]];
      rest := rest - {k};
    }
    assert meta.Keys - rest == meta.Keys;
    if Injective(varmap) {
      var spec := Relabeled(meta, varmap);
      forall v | v in out
        ensures out[v] == spec[v]
      {
        var k :| k in meta && varmap[k] == v;
      }
    }
    return Ok(out);
  }

  /** The stand-in value for an input while the source's units are probed. */
  datatype Probe = UnitsOnly(units: string) | Zero

  /** A unit-tagged zero when the metadata names a non-empty unit, a plain zero otherwise. */
  function ProbeOf(m: Meta): (p: Probe)
    ensures p.UnitsOnly? <==> Units(m).Some? && Units(m).value != ""
    ensures p.UnitsOnly? ==> p.units == Units(m).value
  {
    match Units(m)
    case Some(u) => if u != "" then UnitsOnly(u) else Zero
    case None => Zero
  }

  /** The probe table: the stand-in for every input that has metadata. */
  function ProbeTable(inputs: seq<string>, meta: map<string, Meta>): map<string, Probe>
  {
    map x | x in Elements(inputs) && x in meta :: ProbeOf(meta[x])
  }

  /**
   * The loop that fills the probe table, one entry per input in order; the
   * first input without metadata raises KeyError.
   */
  method UnitProbes(inputs: seq<string>, meta: map<string, Meta>) returns (r: Result<map<string, Probe>, Error>)
    ensures r.Ok? <==> forall i :: 0 <= i < |inputs| ==> inputs[i] in meta
    ensures r.Err? ==> r.error == MissingKey(inputs[FirstAbsent(inputs, meta.Keys)])
    ensures r.Ok? ==> r.value == ProbeTable(inputs, meta) && r.value.Keys == Elements(inputs)
  {
    var probes: map<string, Probe> := map[];
    for i := 0 to |inputs|
      invariant forall j :: 0 <= j < i ==> inputs[j] in meta
      invariant probes.Keys == Elements(inputs[..i])
      invariant forall x :: x in probes ==> x in meta && probes[x] == ProbeOf(meta[x])
    {
      var inp := inputs[i];
      if inp !in meta {
        FirstAbsentIs(inputs, meta.Keys, i);
        return Err(MissingKey(inp));
      }
      assert Elements(inputs[..i + 1]) == Elements(inputs[..i]) + {inp} by {
        assert inputs[..i + 1] == inputs[..i] + [inp];
      }
      probes := probes[inp := ProbeOf(meta[inp])];
    }
    assert inputs[..|inputs|] == inputs;
    assert probes == ProbeTable(inputs, meta);
    return Ok(probes);
  }

  lemma FirstAbsentIs(keys: seq<string>, domain: set<string>, i: nat)
    requires i < |keys| && keys[i] !in domain
    requires forall j :: 0 <= j < i ==> keys[j] in domain
    ensures FirstAbsent(keys, domain) == i
  {
  }
}
