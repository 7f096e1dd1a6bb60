/**
 * The reference mapper: local input names per source reference, the
 * reference-to-local-name table, its key order, and `_invert_dict`.
 */
module References {
  import opened Names

  predicate Distinct(s: seq<string>)
  {
    forall i, j :: 0 <= i < j < |s| ==> s[i] != s[j]
  }

  function Elements(s: seq<string>): set<string>
  {
    set x | x in s
  }

  lemma {:induction false} DistinctCardinality(s: seq<string>)
    requires Distinct(s)
    ensures |Elements(s)| == |s|
  {
    if s != [] {
      var p := s[..|s| - 1];
      assert Distinct(p);
      DistinctCardinality(p);
      assert Elements(s) == Elements(p) + {s[|s| - 1]};
      assert s[|s| - 1] !in Elements(p);
    }
  }

  predicate Injective(m: map<string, string>)
  {
    forall a, b :: a in m && b in m && a != b ==> m[a] != m[b]
  }

  /** The last position at which x occurs in s. */
  function LastIndex(s: seq<string>, x: string): (k: nat)
    requires x in s
    ensures k < |s| && s[k] == x
    ensures forall j :: k < j < |s| ==> s[j] != x
  {
    if s[|s| - 1] == x then |s| - 1 else LastIndex(s[..|s| - 1], x)
  }

  /**
   * The table the constructor's loop builds: reference `refs[i]` is bound to
   * `in<i>`, later occurrences overwriting earlier ones.
   */
  function RefMap(refs: seq<string>): (m: map<string, string>)
    ensures m.Keys == Elements(refs)
  {
    if refs == [] then map[]
    else
      var p := refs[..|refs| - 1];
      assert refs == p + [refs[|refs| - 1]];
      RefMap(p)[refs[|refs| - 1] := InName(|refs| - 1)]
  }

  /** Every reference is bound to the local name of its last occurrence. */
  lemma {:induction false} RefMapLastOccurrence(refs: seq<string>)
    ensures forall r :: r in refs ==> RefMap(refs)[r] == InName(LastIndex(refs, r))
  {
    if refs != [] {
      var p, x := refs[..|refs| - 1], refs[|refs| - 1];
      RefMapLastOccurrence(p);
      assert refs == p + [x];
      forall r | r in refs
        ensures RefMap(refs)[r] == InName(LastIndex(refs, r))
      {
        if r != x {
          assert r in p;
        }
      }
    }
  }

  /** Every value of the table is one of the input names. */
  lemma RefMapIntoInputs(refs: seq<string>)
    ensures forall r :: r in RefMap(refs) ==> RefMap(refs)[r] in InputNames(|refs|)
  {
    RefMapLastOccurrence(refs);
    forall r | r in RefMap(refs)
      ensures RefMap(refs)[r] in InputNames(|refs|)
    {
      assert InputNames(|refs|)[LastIndex(refs, r)] == RefMap(refs)[r];
    }
  }

  /** Distinct references get distinct local names. */
  lemma RefMapInjective(refs: seq<string>)
    ensures Injective(RefMap(refs))
  {
    RefMapLastOccurrence(refs);
    forall a, b | a in RefMap(refs) && b in RefMap(refs) && a != b
      ensures RefMap(refs)[a] != RefMap(refs)[b]
    {
      InNameInjective(LastIndex(refs, a), LastIndex(refs, b));
    }
  }

  /**
   * Slot `in<i>` is the target of some reference exactly when no later
   * occurrence repeats `refs[i]`: a repeated reference leaves its earlier
   * slots out of the table.
   */
  lemma SlotMappedIffLastOccurrence(refs: seq<string>, i: nat)
    requires i < |refs|
    ensures InName(i) in RefMap(refs).Values <==> forall j :: i < j < |refs| ==> refs[j] != refs[i]
  {
    RefMapLastOccurrence(refs);
    var m := RefMap(refs);
    if InName(i) in m.Values {
      var r :| r in m && m[r] == InName(i);
      InNameInjective(LastIndex(refs, r), i);
    }
    if forall j :: i < j < |refs| ==> refs[j] != refs[i] {
      assert LastIndex(refs, refs[i]) == i;
      assert m[refs[i]] == InName(i);
    }
  }

  /** The keys of the table in the order a Python dict keeps them: first insertion. */
  function KeyOrder(refs: seq<string>): (r: seq<string>)
    ensures Distinct(r)
    ensures Elements(r) == Elements(refs)
  {
    if refs == [] then []
    else
      var p, x := refs[..|refs| - 1], refs[|refs| - 1];
      assert refs == p + [x];
      var order := KeyOrder(p);
      if x in p then order
      else
        assert Elements(order + [x]) == Elements(order) + {x};
        assert x !in order;
        order + [x]
  }

  lemma RefMapSnoc(s: seq<string>, k: nat)
    requires k < |s|
    ensures RefMap(s[..k + 1]) == RefMap(s[..k])[s[k] := InName(k)]
  {
    assert s[..k + 1][..k] == s[..k];
  }

  lemma KeyOrderSnoc(s: seq<string>, k: nat)
    requires k < |s|
    ensures KeyOrder(s[..k + 1]) == if s[k] in s[..k] then KeyOrder(s[..k]) else KeyOrder(s[..k]) + [s[k]]
  {
    assert s[..k + 1][..k] == s[..k];
  }

  /** The base names of the references, position by position. */
  function Bases(refs: seq<string>): (r: seq<string>)
    ensures |r| == |refs|
    ensures forall i :: 0 <= i < |refs| ==> r[i] == VarName(refs[i])
  {
    seq(|refs|, i requires 0 <= i < |refs| => VarName(refs[i]))
  }

  /** How one turn of the constructor loop extends each table. */
  lemma MapReferencesStep(refs: seq<string>, i: nat)
    requires i < |refs|
    ensures InputNames(i + 1) == InputNames(i) + [InName(i)]
    ensures Elements(InputNames(i + 1)) == Elements(InputNames(i)) + {InName(i)}
    ensures RefMap(refs[..i + 1]) == RefMap(refs[..i])[refs[i] := InName(i)]
    ensures RefMap(Bases(refs)[..i + 1]) == RefMap(Bases(refs)[..i])[VarName(refs[i]) := InName(i)]
    ensures KeyOrder(refs[..i + 1]) ==
      if refs[i] in refs[..i] then KeyOrder(refs[..i]) else KeyOrder(refs[..i]) + [refs[i]]
  {
    InputNamesSnoc(i);
    RefMapSnoc(refs, i);
    RefMapSnoc(Bases(refs), i);
    KeyOrderSnoc(refs, i);
  }

  /**
   * The constructor loop over the source references: appends `in<i>` to the
   * inputs, binds the reference and its base name to it, and creates the slot.
   * The slot's initial value is left to the caller.
   */
  method MapReferences(refs: seq<string>)
    returns (inputs: seq<string>, mapping: map<string, string>, order: seq<string>,
             varmap: map<string, string>, slotNames: set<string>)
    ensures inputs == InputNames(|refs|)
    ensures mapping == RefMap(refs)
    ensures order == KeyOrder(refs)
    ensures varmap == RefMap(Bases(refs))
    ensures slotNames == Elements(inputs)
  {
    inputs, mapping, order, varmap, slotNames := [], map[], [], map[], {};
    for i := 0 to |refs|
      invariant inputs == InputNames(i)
      invariant mapping == RefMap(refs[..i])
      invariant order == KeyOrder(refs[..i])
      invariant varmap == RefMap(Bases(refs)[..i])
      invariant slotNames == Elements(inputs)
    {
      var ref := refs[i];
      var inName := InName(i);
      MapReferencesStep(refs, i);
      inputs := inputs + [inName];
      if ref !in mapping {
        order := order + [ref];
      }
      mapping := mapping[ref := inName];
      varmap := varmap[VarName(ref) := inName];
      slotNames := slotNames + {inName};
    }
    assert refs[..|refs|] == refs;
    assert Bases(refs)[..|refs|] == Bases(refs);
  }

  /** `_invert_dict`: a table from each value back to a key bound to it. */
  method InvertDict(d: map<string, string>) returns (out: map<string, string>)
    ensures out.Keys == d.Values
    ensures forall v :: v in out ==> out[v] in d && d[out[v]] == v
    ensures Injective(d) ==> forall k :: k in d ==> out[d[k]] == k
  {
    out := map[];
    var rest := d.Keys;
    while rest != {}
      invariant rest <= d.Keys
      invariant out.Keys == set k | k in d.Keys - rest :: d[k]
      invariant forall v :: v in out ==> out[v] in d.Keys - rest && d[out[v]] == v
      decreases rest
    {
      var k :| k in rest;
      out := out[d[k] := k];
      rest := rest - {k};
    }
    assert d.Keys - rest == d.Keys;
  }

  /** The first position whose key is missing from domain, or |keys| if there is none. */
  function FirstAbsent(keys: seq<string>, domain: set<string>): (i: nat)
    ensures i <= |keys|
    ensures forall j :: 0 <= j < i ==> keys[j] in domain
    ensures i < |keys| ==> keys[i] !in domain
  {
    if keys == [] then 0
    else if keys[0] !in domain then 0
    else 1 + FirstAbsent(keys[1..], domain)
  }
}
