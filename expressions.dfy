/**
 * Connection expressions as a tagged tree, the renaming of references to
 * local names, and `unit_transform`, which bakes a unit conversion into the tree.
 */
module Expressions {
  import opened Outcomes

  datatype Op = Add | Sub | Mult

  /** A parsed expression: a variable reference, a numeric literal or a binary operation. */
  datatype Expr =
    | Ref(name: string)
    | Num(value: real)
    | BinOp(left: Expr, op: Op, right: Expr)

  function Apply(op: Op, x: real, y: real): real
  {
    match op
    case Add => x + y
    case Sub => x - y
    case Mult => x * y
  }

  /** The value of e when each reference takes its value from env; None if a reference is unbound. */
  function Eval(e: Expr, env: map<string, real>): Option<real>
  {
    match e
    case Ref(n) => if n in env then Some(env[n]) else None
    case Num(v) => Some(v)
    case BinOp(l, op, r) =>
      var x := Eval(l, env);
      var y := Eval(r, env);
      if x.Some? && y.Some? then Some(Apply(op, x.value, y.value)) else None
  }

  /** The references that occur in e. */
  function Refs(e: Expr): set<string>
  {
    match e
    case Ref(n) => {n}
    case Num(_) => {}
    case BinOp(l, _, r) => Refs(l) + Refs(r)
  }

  /** The name a reference takes under the renaming m: its entry, or itself when it has none. */
  function Rename(m: map<string, string>, n: string): string
  {
    if n in m then m[n] else n
  }

  /**
   * Replaces every reference by its local name, as the constructor does with
   * the reference-to-local-name table before it re-parses the source.
   */
  function Substitute(e: Expr, m: map<string, string>): (r: Expr)
    ensures forall n :: n in Refs(r) <==> exists k :: k in Refs(e) && Rename(m, k) == n
  {
    match e
    case Ref(n) => Ref(Rename(m, n))
    case Num(v) => Num(v)
    case BinOp(l, op, rt) => BinOp(Substitute(l, m), op, Substitute(rt, m))
  }

  /** Every reference of e has an entry in m: then the result mentions only local names. */
  lemma SubstituteIntoLocalNames(e: Expr, m: map<string, string>)
    requires Refs(e) <= m.Keys
    ensures Refs(Substitute(e, m)) <= m.Values
  {
    forall n | n in Refs(Substitute(e, m))
      ensures n in m.Values
    {
      var k :| k in Refs(e) && Rename(m, k) == n;
      assert m[k] == n;
    }
  }

  /** The values seen through the renaming: reference n reads env at its local name. */
  function Pull(m: map<string, string>, env: map<string, real>): (r: map<string, real>)
    ensures forall n :: n in r <==> Rename(m, n) in env && (n in m || n in env)
  {
    map n | n in m.Keys + env.Keys && Rename(m, n) in env :: env[Rename(m, n)]
  }

  /**
   * Evaluating the renamed expression over the local slots equals evaluating
   * the original expression over the values the slots hold for each reference.
   */
  lemma {:induction false} SubstituteEval(e: Expr, m: map<string, string>, env: map<string, real>)
    requires Refs(e) <= m.Keys
    ensures Eval(Substitute(e, m), env) == Eval(e, Pull(m, env))
  {
    match e
    case Ref(n) =>
    case Num(v) =>
    case BinOp(l, op, r) =>
      SubstituteEval(l, m, env);
      SubstituteEval(r, m, env);
  }

  /** A `(scale, offset)` tuple from the unit library. */
  datatype Conversion = Conversion(scale: real, offset: real)

  /** The additive term of the rewrite; the multiply is applied first, so the offset is scaled. */
  function Bias(c: Conversion): real
  {
    c.scale * c.offset
  }

  /**
   * The conversion the tuple stands for: the value in the target unit is
   * `(value + offset) * scale`.
   */
  function Convert(v: real, c: Conversion): real
  {
    (v + c.offset) * c.scale
  }

  /**
   * `unit_transform`: rewrites node into `node*scale`, or into
   * `(node*scale) + scale*offset` when the offset is not zero. The tuple lookup
   * is foreign; conv is its outcome, None when the units are incompatible.
   */
  function UnitTransform(node: Expr, inUnits: string, outUnits: string, conv: Option<Conversion>)
    : (r: Result<Expr, UnitError>)
    ensures r.Err? <==> conv.None?
    ensures r.Err? ==> r.error == IncompatibleUnits(inUnits, outUnits)
    ensures r.Ok? && conv.value.offset == 0.0 ==> r.value == BinOp(node, Mult, Num(conv.value.scale))
    ensures r.Ok? && conv.value.offset != 0.0 ==>
      r.value == BinOp(BinOp(node, Mult, Num(conv.value.scale)), Add, Num(Bias(conv.value)))
    ensures r.Ok? ==> Refs(r.value) == Refs(node)
  {
    match conv
    case None => Err(IncompatibleUnits(inUnits, outUnits))
    case Some(c) =>
      var scaled := BinOp(node, Mult, Num(c.scale));
      assert Refs(scaled) == Refs(node);
      if c.offset != 0.0 then Ok(BinOp(scaled, Add, Num(Bias(c)))) else Ok(scaled)
  }

  /** The rewritten tree evaluates to the converted value of the original one. */
  lemma UnitTransformEval(node: Expr, inUnits: string, outUnits: string, c: Conversion, env: map<string, real>)
    ensures UnitTransform(node, inUnits, outUnits, Some(c)).Ok?
    ensures var r := UnitTransform(node, inUnits, outUnits, Some(c)).value;
      Eval(r, env) == if Eval(node, env).Some? then Some(Convert(Eval(node, env).value, c)) else None
  {
    var v := Eval(node, env);
    var scaled := BinOp(node, Mult, Num(c.scale));
    assert Eval(scaled, env) == if v.Some? then Some(Apply(Mult, v.value, c.scale)) else None;
    if v.Some? {
      var x, s, o := v.value, c.scale, c.offset;
      calc {
        Apply(Add, Apply(Mult, x, s), Bias(c));
        x * s + s * o;
        (x + o) * s;
        Convert(x, c);
      }
    }
  }
}
