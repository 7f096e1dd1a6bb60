/** Synthetic names: the `_pseudo_<n>` allocator, the local `in<i>` names and base-name extraction. */
module Names {

  /** The character of decimal digit d. */
  function DigitChar(d: nat): (c: char)
    requires d < 10
    ensures '0' <= c <= '9'
  {
    (48 + d) as char
  }

  /** The value of a decimal digit character. */
  function DigitValue(c: char): nat
  {
    if '0' <= c <= '9' then c as int - 48 else 0
  }

  /** Decimal rendering of n, as Python's "%d" writes a non-negative int. */
  function Decimal(n: nat): (s: string)
    ensures |s| >= 1
    ensures forall i :: 0 <= i < |s| ==> '0' <= s[i] <= '9'
  {
    if n < 10 then [DigitChar(n)] else Decimal(n / 10) + [DigitChar(n % 10)]
  }

  /** Reads a string of decimal digits back as a number. */
  function ParseDecimal(s: string): nat
  {
    if s == [] then 0 else ParseDecimal(s[..|s| - 1]) * 10 + DigitValue(s[|s| - 1])
  }

  lemma {:induction false} ParseDecimalInverts(n: nat)
    ensures ParseDecimal(Decimal(n)) == n
  {
    var s := Decimal(n);
    if n < 10 {
      assert s[..0] == [];
    } else {
      assert s[..|s| - 1] == Decimal(n / 10);
      ParseDecimalInverts(n / 10);
    }
  }

  lemma DecimalInjective(a: nat, b: nat)
    requires Decimal(a) == Decimal(b)
    ensures a == b
  {
    ParseDecimalInverts(a);
    ParseDecimalInverts(b);
  }

  /** The name the allocator hands out when its counter stands at n: the prefix, then n in decimal. */
  function PseudoName(n: nat): string
  {
    "_pseudo_" + Decimal(n)
  }

  /** The counter value can be read back from the name. */
  lemma PseudoNameParses(n: nat)
    ensures |PseudoName(n)| > 8 && PseudoName(n)[..8] == "_pseudo_" && ParseDecimal(PseudoName(n)[8..]) == n
  {
    assert PseudoName(n)[8..] == Decimal(n);
    ParseDecimalInverts(n);
  }

  lemma PseudoNameInjective(a: nat, b: nat)
    ensures PseudoName(a) == PseudoName(b) ==> a == b
  {
    if PseudoName(a) == PseudoName(b) {
      assert PseudoName(a)[8..] == Decimal(a);
      assert PseudoName(b)[8..] == Decimal(b);
      DecimalInjective(a, b);
    }
  }

  /** Names drawn at distinct counter values are distinct. */
  lemma PseudoNamesDistinct(n: nat)
    ensures forall i, j :: 0 <= i < j < n ==> PseudoName(i) != PseudoName(j)
  {
    forall i, j | 0 <= i < j < n
      ensures PseudoName(i) != PseudoName(j)
    {
      PseudoNameInjective(i, j);
    }
  }

  /** The local name of the i-th source reference: `in`, then i in decimal. */
  function InName(i: nat): string
  {
    "in" + Decimal(i)
  }

  /** The position can be read back from the local name. */
  lemma InNameParses(i: nat)
    ensures |InName(i)| > 2 && InName(i)[..2] == "in" && ParseDecimal(InName(i)[2..]) == i
  {
    assert InName(i)[2..] == Decimal(i);
    ParseDecimalInverts(i);
  }

  lemma InNameInjective(a: nat, b: nat)
    ensures InName(a) == InName(b) <==> a == b
  {
    if InName(a) == InName(b) {
      assert InName(a)[2..] == Decimal(a);
      assert InName(b)[2..] == Decimal(b);
      DecimalInjective(a, b);
    }
  }

  /** No input name is the output name. */
  lemma InNameIsNotOut(i: nat)
    ensures InName(i) != "out0"
  {
    assert InName(i)[0] == 'i';
  }

  /** `[in0, ..., in(n-1)]`. */
  function InputNames(n: nat): (r: seq<string>)
    ensures |r| == n
    ensures forall i :: 0 <= i < n ==> r[i] == InName(i)
  {
    seq(n, i requires 0 <= i < n => InName(i))
  }

  lemma InputNamesSnoc(n: nat)
    ensures InputNames(n + 1) == InputNames(n) + [InName(n)]
  {
  }

  lemma InputNamesDistinct(n: nat)
    ensures forall i, j :: 0 <= i < j < n ==> InputNames(n)[i] != InputNames(n)[j]
  {
    forall i, j | 0 <= i < j < n
      ensures InputNames(n)[i] != InputNames(n)[j]
    {
      InNameInjective(i, j);
    }
  }

  /**
   * The process-wide counter behind `_get_new_name`. The lock that guards it
   * is not modelled; `issued` records every name handed out so far.
   */
  class NameAllocator {
    var count: nat
    ghost var issued: seq<string>

    ghost predicate Valid()
      reads this
    {
      |issued| == count && forall i :: 0 <= i < count ==> issued[i] == PseudoName(i)
    }

    /** The counter starts at zero when the module is loaded. */
    constructor ()
      ensures Valid() && count == 0 && issued == []
    {
      count := 0;
      issued := [];
    }

    method NewName() returns (name: string)
      requires Valid()
      modifies this
      ensures Valid()
      ensures name == PseudoName(old(count)) && count == old(count) + 1
      ensures issued == old(issued) + [name]
      ensures name !in old(issued)
    {
      name := "_pseudo_" + Decimal(count);
      forall i | 0 <= i < count
        ensures issued[i] != name
      {
        PseudoNameInjective(i, count);
      }
      count := count + 1;
      issued := issued + [name];
    }
  }

  /** Python's `str.find`: the first index of c in s, or -1. */
  function Find(s: string, c: char): (r: int)
    ensures -1 <= r < |s|
    ensures r == -1 <==> c !in s
    ensures r >= 0 ==> s[r] == c && c !in s[..r]
  {
    if s == [] then -1
    else if s[0] == c then 0
    else
      var k := Find(s[1..], c);
      if k == -1 then -1
      else
        assert s[..k + 1] == [s[0]] + s[1..][..k];
        k + 1
  }

  /** `_get_varname`: the reference without its index suffix. */
  function VarName(name: string): (r: string)
    ensures '[' !in r
    ensures |r| <= |name| && r == name[..|r|]
    ensures '[' !in name ==> r == name
    ensures '[' in name ==> |r| < |name| && name[|r|] == '['
  {
    var idx := Find(name, '[');
    if idx == -1 then name else name[..idx]
  }

  lemma VarNameIdempotent(name: string)
    ensures VarName(VarName(name)) == VarName(name)
  {
  }
}
