/**
 What the lowering recipes compute: evaluated on values, the recipe of every
 scalar instruction yields the value the intermediate representation gives it,
 and the code instantiated from a recipe executes as the recipe evaluates.
 */
module RecipeMeaning {
  import opened Common
  import opened ShaderIr
  import opened EmitterSpec
  import opened SpirvMachine

  // ── Evaluation of a recipe ─────────────────────────────────────────────

  function TyOf(t: TyRef): Ty {
    match t
    case RF32 => F32
    case RI32 => I32
    case RU32 => U32
    case RBool => Bool
    case RVec4 => Vec4F32
    case _ => OtherTy
  }

  /** Types whose declaration the machine needs to know. */
  predicate Simple(t: TyRef) {
    t.RF32? || t.RI32? || t.RU32? || t.RBool?
  }

  function RefVal(temps: seq<Val>, r: Ref): Option<Val> {
    match r
    case T(k) => if k < |temps| then Some(temps[k]) else None
    case RZero => Some(VF(0))
    case ROne => Some(VF(ONE_F32))
    case _ => None
  }

  function RefVals(temps: seq<Val>, rs: seq<Ref>): Option<seq<Val>> {
    if rs == [] then Some([])
    else if RefVal(temps, rs[0]).None? then None
    else
      match RefVals(temps, rs[1..])
      case None => None
      case Some(rest) => Some([RefVal(temps, rs[0]).value] + rest)
  }

  function EvalStep(fp: FloatOps, temps: seq<Val>, m: Micro): Option<Val> {
    if !Simple(m.ty) then None
    else if m.op == 12 then
      if |m.args| >= 2 && m.args[0].RGlsl? && m.args[1].Lit? && RefVals(temps, m.args[2..]).Some? then
        ApplyExt(fp, m.args[1].n, TyOf(m.ty), RefVals(temps, m.args[2..]).value)
      else None
    else if 100 <= m.op <= 140 && RefVals(temps, m.args).Some? then
      Apply(fp, m.op, TyOf(m.ty), RefVals(temps, m.args).value)
    else None
  }

  function EvalBody(fp: FloatOps, temps: seq<Val>, body: seq<Micro>): Option<seq<Val>>
    decreases |body|
  {
    if body == [] then Some(temps)
    else
      match EvalStep(fp, temps, body[0])
      case None => None
      case Some(v) => EvalBody(fp, temps + [v], body[1..])
  }

  lemma EvalCons(fp: FloatOps, temps: seq<Val>, m: Micro, rest: seq<Micro>, v: Val)
    requires EvalStep(fp, temps, m) == Some(v)
    ensures EvalBody(fp, temps, [m] + rest) == EvalBody(fp, temps + [v], rest)
  {
    assert ([m] + rest)[1..] == rest;
  }

  lemma RefVals1(temps: seq<Val>, r: Ref)
    requires RefVal(temps, r).Some?
    ensures RefVals(temps, [r]) == Some([RefVal(temps, r).value])
  {
    assert [r][1..] == [];
    assert [RefVal(temps, r).value] + [] == [RefVal(temps, r).value];
  }

  lemma RefVals2(temps: seq<Val>, r: Ref, q: Ref)
    requires RefVal(temps, r).Some? && RefVal(temps, q).Some?
    ensures RefVals(temps, [r, q]) == Some([RefVal(temps, r).value, RefVal(temps, q).value])
  {
    assert [r, q][1..] == [q];
    RefVals1(temps, q);
    assert [RefVal(temps, r).value] + [RefVal(temps, q).value] == [RefVal(temps, r).value, RefVal(temps, q).value];
  }

  lemma RefVals3(temps: seq<Val>, r: Ref, q: Ref, t: Ref)
    requires RefVal(temps, r).Some? && RefVal(temps, q).Some? && RefVal(temps, t).Some?
    ensures RefVals(temps, [r, q, t]) == Some([RefVal(temps, r).value, RefVal(temps, q).value, RefVal(temps, t).value])
  {
    assert [r, q, t][1..] == [q, t];
    RefVals2(temps, q, t);
    var rest := [RefVal(temps, q).value, RefVal(temps, t).value];
    assert [RefVal(temps, r).value] + rest == [RefVal(temps, r).value, RefVal(temps, q).value, RefVal(temps, t).value];
  }

  // ── Single steps ───────────────────────────────────────────────────────

  lemma EvalBitcast(fp: FloatOps, temps: seq<Val>, ty: TyRef, k: nat, bits: u32)
    requires k < |temps| && BitsOf(temps[k]) == Some(bits) && (ty.RF32? || ty.RI32?)
    ensures EvalStep(fp, temps, Bc(ty, k)) == Some(if ty.RF32? then VF(bits) else VI(bits))
  {
    RefVals1(temps, T(k));
  }

  lemma EvalUnary(fp: FloatOps, temps: seq<Val>, op: nat, ty: TyRef, r: Ref, v: Val)
    requires Simple(ty) && 100 <= op <= 140 && RefVal(temps, r).Some?
    requires Apply(fp, op, TyOf(ty), [RefVal(temps, r).value]) == Some(v)
    ensures EvalStep(fp, temps, Micro(op, ty, [r])) == Some(v)
  {
    RefVals1(temps, r);
  }

  lemma EvalBinary(fp: FloatOps, temps: seq<Val>, op: nat, ty: TyRef, r: Ref, q: Ref, v: Val)
    requires Simple(ty) && 100 <= op <= 140 && RefVal(temps, r).Some? && RefVal(temps, q).Some?
    requires Apply(fp, op, TyOf(ty), [RefVal(temps, r).value, RefVal(temps, q).value]) == Some(v)
    ensures EvalStep(fp, temps, Micro(op, ty, [r, q])) == Some(v)
  {
    RefVals2(temps, r, q);
  }

  lemma EvalExt(fp: FloatOps, temps: seq<Val>, n: nat, ty: TyRef, rs: seq<Ref>, v: Val)
    requires Simple(ty) && RefVals(temps, rs).Some? && ApplyExt(fp, n, TyOf(ty), RefVals(temps, rs).value) == Some(v)
    ensures EvalStep(fp, temps, Ext(n, ty, rs)) == Some(v)
  {
    var m := Ext(n, ty, rs);
    assert m.args[2..] == rs;
  }

  lemma EvalOne(fp: FloatOps, temps: seq<Val>, m: Micro, v: Val)
    requires EvalStep(fp, temps, m) == Some(v)
    ensures EvalBody(fp, temps, [m]) == Some(temps + [v])
  {
    EvalCons(fp, temps, m, [], v);
    assert [m] + [] == [m];
  }

  // ── Whole recipes ──────────────────────────────────────────────────────

  /** On these loaded words the recipe computes the given word. */
  ghost predicate Computes(fp: FloatOps, r: Recipe, loaded: seq<Val>, w: u32) {
    var end := EvalBody(fp, loaded, r.body);
    !r.toPredicate && r.minSrc <= r.loads == |loaded| && end.Some? && r.val != RTex && RefVal(end.value, r.val) == Some(VF(w))
  }

  lemma Float2Computes(fp: FloatOps, op: Arith, a: u32, b: u32, w: u32)
    requires Apply(fp, op, F32, [VF(a), VF(b)]) == Some(VF(w)) && op <= 140
    ensures Computes(fp, Float2(op), [VF(a), VF(b)], w)
  {
    var t := [VF(a), VF(b)];
    EvalBinary(fp, t, op, RF32, T(0), T(1), VF(w));
    EvalOne(fp, t, Micro(op, RF32, [T(0), T(1)]), VF(w));
  }

  lemma FloatExt1Computes(fp: FloatOps, n: nat, a: u32, w: u32)
    requires ApplyExt(fp, n, F32, [VF(a)]) == Some(VF(w))
    ensures Computes(fp, FloatExt1(n), [VF(a)], w)
  {
    var t := [VF(a)];
    RefVals1(t, T(0));
    EvalExt(fp, t, n, RF32, [T(0)], VF(w));
    EvalOne(fp, t, Ext(n, RF32, [T(0)]), VF(w));
  }

  lemma FloatExt2Computes(fp: FloatOps, n: nat, a: u32, b: u32, w: u32)
    requires ApplyExt(fp, n, F32, [VF(a), VF(b)]) == Some(VF(w))
    ensures Computes(fp, FloatExt2(n), [VF(a), VF(b)], w)
  {
    var t := [VF(a), VF(b)];
    RefVals2(t, T(0), T(1));
    EvalExt(fp, t, n, RF32, [T(0), T(1)], VF(w));
    EvalOne(fp, t, Ext(n, RF32, [T(0), T(1)]), VF(w));
  }

  lemma ClampComputes(fp: FloatOps, a: u32)
    ensures Computes(fp, Clamp(), [VF(a)], fp.clamp(a, 0, ONE_F32))
  {
    var t := [VF(a)];
    RefVals3(t, T(0), RZero, ROne);
    EvalExt(fp, t, 43, RF32, [T(0), RZero, ROne], VF(fp.clamp(a, 0, ONE_F32)));
    EvalOne(fp, t, Ext(43, RF32, [T(0), RZero, ROne]), VF(fp.clamp(a, 0, ONE_F32)));
  }

  lemma ReciprocalComputes(fp: FloatOps, a: u32)
    ensures Computes(fp, Reciprocal(), [VF(a)], fp.div(ONE_F32, a))
  {
    var t := [VF(a)];
    EvalBinary(fp, t, 136, RF32, ROne, T(0), VF(fp.div(ONE_F32, a)));
    EvalOne(fp, t, Micro(136, RF32, [ROne, T(0)]), VF(fp.div(ONE_F32, a)));
  }

  lemma FloatNegComputes(fp: FloatOps, a: u32)
    ensures Computes(fp, FloatNeg(), [VF(a)], fp.neg(a))
  {
    var t := [VF(a)];
    EvalUnary(fp, t, 127, RF32, T(0), VF(fp.neg(a)));
    EvalOne(fp, t, Micro(127, RF32, [T(0)]), VF(fp.neg(a)));
  }

  lemma MulAddComputes(fp: FloatOps, a: u32, b: u32, c: u32)
    ensures Computes(fp, MulAdd(), [VF(a), VF(b), VF(c)], fp.add(fp.mul(a, b), c))
  {
    var t, p := [VF(a), VF(b), VF(c)], fp.mul(a, b);
    var mul, add := Micro(133, RF32, [T(0), T(1)]), Micro(129, RF32, [T(3), T(2)]);
    EvalBinary(fp, t, 133, RF32, T(0), T(1), VF(p));
    EvalCons(fp, t, mul, [add], VF(p));
    EvalBinary(fp, t + [VF(p)], 129, RF32, T(3), T(2), VF(fp.add(p, c)));
    EvalOne(fp, t + [VF(p)], add, VF(fp.add(p, c)));
    assert [mul] + [add] == [mul, add];
  }

  lemma PassComputes(fp: FloatOps, a: u32)
    ensures Computes(fp, Pass(1), [VF(a)], a)
  {
  }

  lemma ToIntComputes(fp: FloatOps, a: u32)
    ensures Computes(fp, ToInt(), [VF(a)], fp.toSigned(a))
  {
    var t, v := [VF(a)], VI(fp.toSigned(a));
    var conv := Micro(110, RI32, [T(0)]);
    EvalUnary(fp, t, 110, RI32, T(0), v);
    EvalCons(fp, t, conv, [Bc(RF32, 1)], v);
    EvalBitcast(fp, t + [v], RF32, 1, v.i);
    EvalOne(fp, t + [v], Bc(RF32, 1), VF(v.i));
    assert [conv] + [Bc(RF32, 1)] == [conv, Bc(RF32, 1)];
  }

  lemma ToFloatComputes(fp: FloatOps, a: u32)
    ensures Computes(fp, ToFloat(), [VF(a)], fp.fromSigned(a))
  {
    var t := [VF(a)];
    var conv := Micro(111, RF32, [T(1)]);
    EvalBitcast(fp, t, RI32, 0, a);
    EvalCons(fp, t, Bc(RI32, 0), [conv], VI(a));
    EvalUnary(fp, t + [VI(a)], 111, RF32, T(1), VF(fp.fromSigned(a)));
    EvalOne(fp, t + [VI(a)], conv, VF(fp.fromSigned(a)));
    assert [Bc(RI32, 0)] + [conv] == [Bc(RI32, 0), conv];
  }

  /** A one-source integer operation between a bitcast in and a bitcast out. */
  lemma Int1Computes(fp: FloatOps, r: Recipe, op: Micro, a: u32, w: u32)
    requires r == Recipe(1, 1, [Bc(RI32, 0), op, Bc(RF32, 2)], T(3), false)
    requires EvalStep(fp, [VF(a), VI(a)], op) == Some(VI(w))
    ensures Computes(fp, r, [VF(a)], w)
  {
    var t := [VF(a)];
    EvalBitcast(fp, t, RI32, 0, a);
    EvalCons(fp, t, Bc(RI32, 0), [op, Bc(RF32, 2)], VI(a));
    assert t + [VI(a)] == [VF(a), VI(a)];
    EvalCons(fp, [VF(a), VI(a)], op, [Bc(RF32, 2)], VI(w));
    assert [VF(a), VI(a)] + [VI(w)] == [VF(a), VI(a), VI(w)];
    EvalBitcast(fp, [VF(a), VI(a), VI(w)], RF32, 2, w);
    EvalOne(fp, [VF(a), VI(a), VI(w)], Bc(RF32, 2), VF(w));
    assert [op] + [Bc(RF32, 2)] == [op, Bc(RF32, 2)];
    assert [Bc(RI32, 0)] + [op, Bc(RF32, 2)] == r.body;
  }

  lemma IntNegComputes(fp: FloatOps, a: u32)
    ensures Computes(fp, IntNeg(), [VF(a)], Neg32(a))
  {
    EvalUnary(fp, [VF(a), VI(a)], 126, RI32, T(1), VI(Neg32(a)));
    Int1Computes(fp, IntNeg(), Micro(126, RI32, [T(1)]), a, Neg32(a));
  }

  lemma IntAbsComputes(fp: FloatOps, a: u32)
    ensures Computes(fp, IntAbs(), [VF(a)], Abs32(a))
  {
    var t := [VF(a), VI(a)];
    RefVals1(t, T(1));
    EvalExt(fp, t, 5, RI32, [T(1)], VI(Abs32(a)));
    Int1Computes(fp, IntAbs(), Ext(5, RI32, [T(1)]), a, Abs32(a));
  }

  lemma Int2Computes(fp: FloatOps, op: Arith, a: u32, b: u32, w: u32)
    requires Apply(fp, op, I32, [VI(a), VI(b)]) == Some(VI(w)) && op <= 140
    ensures Computes(fp, Int2(op), [VF(a), VF(b)], w)
  {
    hide EvalBody, EvalStep;
    var m := Micro(op, RI32, [T(2), T(3)]);
    var t0 := [VF(a), VF(b)];
    var t1 := t0 + [VI(a)];
    var t2 := t1 + [VI(b)];
    var t3 := t2 + [VI(w)];
    EvalBitcast(fp, t0, RI32, 0, a);
    EvalBitcast(fp, t1, RI32, 1, b);
    EvalBinary(fp, t2, op, RI32, T(2), T(3), VI(w));
    EvalBitcast(fp, t3, RF32, 4, w);
    EvalCons(fp, t0, Bc(RI32, 0), [Bc(RI32, 1), m, Bc(RF32, 4)], VI(a));
    EvalCons(fp, t1, Bc(RI32, 1), [m, Bc(RF32, 4)], VI(b));
    EvalCons(fp, t2, m, [Bc(RF32, 4)], VI(w));
    EvalOne(fp, t3, Bc(RF32, 4), VF(w));
    assert [m] + [Bc(RF32, 4)] == [m, Bc(RF32, 4)];
    assert [Bc(RI32, 1)] + [m, Bc(RF32, 4)] == [Bc(RI32, 1), m, Bc(RF32, 4)];
    assert [Bc(RI32, 0)] + [Bc(RI32, 1), m, Bc(RF32, 4)] == Int2(op).body;
  }

  lemma {:induction false} EvalAppend(fp: FloatOps, temps: seq<Val>, a: seq<Micro>, b: seq<Micro>)
    requires EvalBody(fp, temps, a).Some?
    ensures EvalBody(fp, temps, a + b) == EvalBody(fp, EvalBody(fp, temps, a).value, b)
    decreases |a|
  {
    if a == [] {
      assert a + b == b;
    } else {
      assert (a + b)[1..] == a[1..] + b;
      EvalAppend(fp, temps + [EvalStep(fp, temps, a[0]).value], a[1..], b);
    }
  }

  lemma EvalThree(fp: FloatOps, t: seq<Val>, a: Micro, b: Micro, c: Micro, x: Val, y: Val, z: Val)
    requires EvalStep(fp, t, a) == Some(x) && EvalStep(fp, t + [x], b) == Some(y) && EvalStep(fp, t + [x, y], c) == Some(z)
    ensures EvalBody(fp, t, [a, b, c]) == Some(t + [x, y, z])
  {
    hide EvalBody, EvalStep;
    EvalCons(fp, t, a, [b, c], x);
    EvalCons(fp, t + [x], b, [c], y);
    assert t + [x] + [y] == t + [x, y];
    EvalOne(fp, t + [x, y], c, z);
    assert t + [x, y] + [z] == t + [x, y, z];
    assert [b] + [c] == [b, c];
    assert [a] + [b, c] == [a, b, c];
  }

  lemma Int3Computes(fp: FloatOps, op: Arith, a: u32, b: u32, c: u32, x: u32)
    requires Apply(fp, op, I32, [VI(a), VI(b)]) == Some(VI(x)) && op <= 140
    ensures Computes(fp, Int3(op), [VF(a), VF(b), VF(c)], Add32(x, c))
  {
    hide EvalBody, EvalStep, Add32;
    var m, n, out := Micro(op, RI32, [T(3), T(4)]), Micro(128, RI32, [T(6), T(5)]), Bc(RF32, 7);
    var w := Add32(x, c);
    var t0 := [VF(a), VF(b), VF(c)];
    EvalBitcast(fp, t0, RI32, 0, a);
    EvalBitcast(fp, t0 + [VI(a)], RI32, 1, b);
    EvalBitcast(fp, t0 + [VI(a), VI(b)], RI32, 2, c);
    EvalThree(fp, t0, Bc(RI32, 0), Bc(RI32, 1), Bc(RI32, 2), VI(a), VI(b), VI(c));
    var t3 := t0 + [VI(a), VI(b), VI(c)];
    EvalBinary(fp, t3, op, RI32, T(3), T(4), VI(x));
    EvalBinary(fp, t3 + [VI(x)], 128, RI32, T(6), T(5), VI(w));
    EvalBitcast(fp, t3 + [VI(x), VI(w)], RF32, 7, w);
    EvalThree(fp, t3, m, n, out, VI(x), VI(w), VF(w));
    EvalAppend(fp, t0, [Bc(RI32, 0), Bc(RI32, 1), Bc(RI32, 2)], [m, n, out]);
    assert [Bc(RI32, 0), Bc(RI32, 1), Bc(RI32, 2)] + [m, n, out] == Int3(op).body;
  }

  lemma MufuComputes(fp: FloatOps, op: nat, a: u32)
    requires ScalarMufu(op)
    ensures Computes(fp, MufuRecipe(op), [VF(a)], MufuValue(fp, op, a))
  {
    hide Computes, FloatExt1, Reciprocal;
    if op == MUFU_SIN {
      FloatExt1Computes(fp, 13, a, fp.sin(a));
    } else if op == MUFU_COS {
      FloatExt1Computes(fp, 14, a, fp.cos(a));
    } else if op == MUFU_RCP {
      ReciprocalComputes(fp, a);
    } else if op == MUFU_RSQ {
      FloatExt1Computes(fp, 32, a, fp.invSqrt(a));
    } else if op == MUFU_SQRT {
      FloatExt1Computes(fp, 31, a, fp.sqrt(a));
    } else if op == MUFU_FLOOR {
      FloatExt1Computes(fp, 8, a, fp.floor(a));
    } else if op == MUFU_CEIL {
      FloatExt1Computes(fp, 9, a, fp.ceil(a));
    } else {
      FloatExt1Computes(fp, 15, a, fp.tan(a));
    }
  }

  /** The words a scalar instruction reads, loaded. */
  function Loaded(n: nat, a: u32, b: u32, c: u32): seq<Val> {
    if n == 0 then [] else if n == 1 then [VF(a)] else if n == 2 then [VF(a), VF(b)] else [VF(a), VF(b), VF(c)]
  }

  lemma FloatLowered(fp: FloatOps, op: FloatOp, mufu: nat, toGpr: bool, a: u32, b: u32, c: u32)
    requires FloatArity(op, mufu) > 0
    ensures FloatRecipe(op, mufu, toGpr).Some?
    ensures Computes(fp, FloatRecipe(op, mufu, toGpr).value, Loaded(FloatArity(op, mufu), a, b, c),
                     FloatValue(fp, op, mufu, a, b, c))
  {
    hide Computes, Apply, ApplyExt, MufuRecipe, MufuValue;
    hide Float2, FloatExt1, FloatExt2, MulAdd, FloatNeg, Clamp, Reciprocal;
    match op
    case FMAD => MulAddComputes(fp, a, b, c);
    case FADD => FloatCore(fp, a, b); Float2Computes(fp, 129, a, b, fp.add(a, b));
    case FMUL => FloatCore(fp, a, b); Float2Computes(fp, 133, a, b, fp.mul(a, b));
    case FMAX => FloatGlsl2(fp, a, b); FloatExt2Computes(fp, 40, a, b, fp.max(a, b));
    case FMIN => FloatGlsl2(fp, a, b); FloatExt2Computes(fp, 37, a, b, fp.min(a, b));
    case FSAT => ClampComputes(fp, a);
    case FNEG => FloatNegComputes(fp, a);
    case FABS => FloatGlsl1(fp, a); FloatExt1Computes(fp, 4, a, fp.abs(a));
    case FRCP => ReciprocalComputes(fp, a);
    case FRSQ => FloatGlsl1(fp, a); FloatExt1Computes(fp, 32, a, fp.invSqrt(a));
    case FSQRT => FloatGlsl1(fp, a); FloatExt1Computes(fp, 31, a, fp.sqrt(a));
    case MUFU => MufuComputes(fp, mufu, a);
  }

  lemma IntLowered(fp: FloatOps, op: IntOp, a: u32, b: u32, c: u32)
    requires IntArity(op) > 0
    ensures Computes(fp, IntRecipe(op), Loaded(IntArity(op), a, b, c), IntValue(fp, op, a, b, c))
  {
    hide Computes, Apply, Add32, Sub32, Mul32, Neg32, Abs32;
    hide Int2, Int3, IntNeg, IntAbs, ToFloat, Pass;
    IntCore(fp, a, b);
    match op
    case IADD => Int2Computes(fp, 128, a, b, Add32(a, b));
    case ISUB => Int2Computes(fp, 130, a, b, Sub32(a, b));
    case IMUL => Int2Computes(fp, 132, a, b, Mul32(a, b));
    case IMAD => Int3Computes(fp, 132, a, b, c, Mul32(a, b));
    case IADD3 => Int3Computes(fp, 128, a, b, c, Add32(a, b));
    case INEG => IntNegComputes(fp, a);
    case IABS => IntAbsComputes(fp, a);
    case I2F => ToFloatComputes(fp, a);
    case I2I => PassComputes(fp, a);
  }

  /** On any source words the recipe of a scalar instruction computes the word the instruction writes. */
  lemma ScalarRecipe(fp: FloatOps, i: IrInst, a: u32, b: u32, c: u32, tex: nat)
    requires Arity(i.opcode, i.src0.mufu) > 0
    ensures RecipeOf(i, tex).Some?
    ensures Computes(fp, RecipeOf(i, tex).value, Loaded(Arity(i.opcode, i.src0.mufu), a, b, c),
                     Value(fp, i.opcode, i.src0.mufu, a, b, c))
  {
    hide Computes, FloatArity, FloatValue, FloatRecipe, IntArity, IntValue, IntRecipe, ToInt, Pass;
    match i.opcode
    case Flt(f) => FloatLowered(fp, f, i.src0.mufu, i.dest.kind.KGpr?, a, b, c);
    case Int(n) => IntLowered(fp, n, a, b, c);
    case Cvt(v) => ToIntComputes(fp, a); PassComputes(fp, a);
  }

  lemma FloatCore(fp: FloatOps, a: u32, b: u32)
    ensures Apply(fp, 129, F32, [VF(a), VF(b)]) == Some(VF(fp.add(a, b)))
    ensures Apply(fp, 133, F32, [VF(a), VF(b)]) == Some(VF(fp.mul(a, b)))
  {
  }

  lemma FloatGlsl1(fp: FloatOps, a: u32)
    ensures ApplyExt(fp, 4, F32, [VF(a)]) == Some(VF(fp.abs(a)))
    ensures ApplyExt(fp, 31, F32, [VF(a)]) == Some(VF(fp.sqrt(a)))
    ensures ApplyExt(fp, 32, F32, [VF(a)]) == Some(VF(fp.invSqrt(a)))
  {
  }

  lemma FloatGlsl2(fp: FloatOps, a: u32, b: u32)
    ensures ApplyExt(fp, 37, F32, [VF(a), VF(b)]) == Some(VF(fp.min(a, b)))
    ensures ApplyExt(fp, 40, F32, [VF(a), VF(b)]) == Some(VF(fp.max(a, b)))
  {
  }

  lemma IntCore(fp: FloatOps, a: u32, b: u32)
    ensures Apply(fp, 128, I32, [VI(a), VI(b)]) == Some(VI(Add32(a, b)))
    ensures Apply(fp, 130, I32, [VI(a), VI(b)]) == Some(VI(Sub32(a, b)))
    ensures Apply(fp, 132, I32, [VI(a), VI(b)]) == Some(VI(Mul32(a, b)))
  {
  }

  // ── Which float opcodes compute what they name ─────────────────────────

  /** The function a multi-function number names; None for a number without a name. */
  function NamedMufu(fp: FloatOps, op: nat, a: u32): Option<u32> {
    if ScalarMufu(op) then Some(MufuValue(fp, op, a))
    else if op == MUFU_EX2 then Some(fp.exp2(a))
    else if op == MUFU_LG2 then Some(fp.log2(a))
    else if op == MUFU_CBRT then Some(fp.cbrt(a))
    else None
  }

  /** The word a float opcode should write, by its name. */
  function NamedFloat(fp: FloatOps, op: FloatOp, mufu: nat, a: u32, b: u32, c: u32): Option<u32> {
    match op
    case FEX2 => Some(fp.exp2(a))
    case FLG2 => Some(fp.log2(a))
    case FSIN => Some(fp.sin(a))
    case FCOS => Some(fp.cos(a))
    case MUFU => NamedMufu(fp, mufu, a)
    case _ => Some(FloatValue(fp, op, mufu, a, b, c))
  }

  function NamedArity(op: FloatOp): nat {
    match op
    case FMAD => 3
    case FADD | FMUL | FMAX | FMIN => 2
    case _ => 1
  }

  /** On these words the opcode's recipe computes what the opcode names. */
  ghost predicate Right(fp: FloatOps, op: FloatOp, mufu: nat, toGpr: bool, a: u32, b: u32, c: u32) {
    var r, w := FloatRecipe(op, mufu, toGpr), NamedFloat(fp, op, mufu, a, b, c);
    r.Some? && w.Some? && Computes(fp, r.value, Loaded(NamedArity(op), a, b, c), w.value)
  }

  /** The opcodes whose recipe has the right number for the right function. */
  predicate WellNumbered(op: FloatOp, mufu: nat) {
    op != FEX2 && op != FLG2 && op != FSIN && op != FCOS && (op == MUFU ==> ScalarMufu(mufu))
  }

  /** Float operations that tell the named functions from the ones emitted instead: the former are 1, the others 0. */
  function Telling(): FloatOps {
    var zero, one := (a: u32) => 0 as u32, (a: u32) => 1 as u32;
    var two := (a: u32, b: u32) => 0 as u32;
    FloatOps(two, two, two, two, zero, zero, two, two, (a: u32, b: u32, c: u32) => a,
             zero, zero, one, one, zero, zero, zero, one, one, zero, zero, one, zero, zero)
  }

  /** FEX2 and FLG2 are lowered to the extended instructions 22 and 24, which are asinh and atanh. */
  lemma ExponentsComputed(fp: FloatOps, a: u32)
    ensures Computes(fp, FloatExt1(22), [VF(a)], fp.asinh(a)) && Computes(fp, FloatExt1(24), [VF(a)], fp.atanh(a))
  {
    hide Computes, FloatExt1;
    FloatExt1Computes(fp, 22, a, fp.asinh(a));
    FloatExt1Computes(fp, 24, a, fp.atanh(a));
  }

  lemma OneResult(fp: FloatOps, r: Recipe, loaded: seq<Val>, w: u32, v: u32)
    requires Computes(fp, r, loaded, w) && Computes(fp, r, loaded, v)
    ensures w == v
  {
  }

  /** Any other opcode goes wrong already at the word 0. */
  lemma Miscompiled(op: FloatOp, mufu: nat, toGpr: bool)
    requires !WellNumbered(op, mufu)
    ensures !Right(Telling(), op, mufu, toGpr, 0, 0, 0)
  {
    hide Computes, FloatExt1, Pass, FloatValue, MufuValue;
    var fp := Telling();
    ExponentsComputed(fp, 0);
    PassComputes(fp, 0);
    var r := FloatRecipe(op, mufu, toGpr);
    if Right(fp, op, mufu, toGpr, 0, 0, 0) {
      OneResult(fp, r.value, [VF(0)], 0, 1);
    }
  }

  /**
   A float opcode computes the function it names, for every interpretation of the
   float operations and all words, if and only if it is none of FEX2, FLG2, FSIN
   and FCOS, nor a multi-function operation other than those with a right number.
   */
  lemma FloatExact(op: FloatOp, mufu: nat, toGpr: bool)
    ensures WellNumbered(op, mufu) <==>
            forall fp: FloatOps, a: u32, b: u32, c: u32 :: Right(fp, op, mufu, toGpr, a, b, c)
  {
    hide Right, Telling;
    if WellNumbered(op, mufu) {
      forall fp: FloatOps, a: u32, b: u32, c: u32 ensures Right(fp, op, mufu, toGpr, a, b, c) {
        RightWhenNumbered(fp, op, mufu, toGpr, a, b, c);
      }
    } else {
      Miscompiled(op, mufu, toGpr);
    }
  }

  lemma RightWhenNumbered(fp: FloatOps, op: FloatOp, mufu: nat, toGpr: bool, a: u32, b: u32, c: u32)
    requires WellNumbered(op, mufu)
    ensures Right(fp, op, mufu, toGpr, a, b, c)
  {
    hide Computes, FloatRecipe, MufuValue;
    FloatLowered(fp, op, mufu, toGpr, a, b, c);
  }
}
