/**
 The lowering recipes written out as instruction lists, in the form in which the
 emitter adds them one by one.
 */
module EmitterLowering {
  import opened Common
  import opened Sequences
  import opened Spirv
  import opened ShaderIr
  import opened EmitterSpec

  /** An operation with a result type and a result id. */
  function Op(op: nat, ty: nat, id: nat, args: seq<nat>): Inst {
    Inst(op, [ty, id] + args)
  }

  // ── Lists of operands and steps ────────────────────────────────────────

  lemma Refs(env: Env, n: nat, rs: seq<Ref>, ids: seq<nat>)
    requires |ids| == |rs| && forall k :: 0 <= k < |rs| ==> ids[k] == RefId(env, n, rs[k])
    ensures RefIds(env, n, rs) == ids
  {
  }

  /** One step, given the ids of its operands. */
  lemma Step(env: Env, n: nat, k: nat, op: nat, ty: TyRef, rs: seq<Ref>, ids: seq<nat>)
    requires |ids| == |rs| && forall j :: 0 <= j < |rs| ==> ids[j] == RefId(env, n, rs[j])
    ensures MicroInst(env, n, k, Micro(op, ty, rs)) == Op(op, TyId(env, ty), n + k, ids)
  {
    Refs(env, n, rs, ids);
  }

  lemma BitcastStep(env: Env, n: nat, k: nat, ty: TyRef, j: nat)
    ensures MicroInst(env, n, k, Bc(ty, j)) == Op(124, TyId(env, ty), n + k, [n + j])
  {
    Step(env, n, k, 124, ty, [T(j)], [n + j]);
  }

  lemma ExtStep(env: Env, n: nat, k: nat, number: nat, ty: TyRef, rs: seq<Ref>, ids: seq<nat>)
    requires |ids| == |rs| && forall j :: 0 <= j < |rs| ==> ids[j] == RefId(env, n, rs[j])
    ensures MicroInst(env, n, k, Ext(number, ty, rs)) == Op(12, TyId(env, ty), n + k, [env.ids.Glsl(), number] + ids)
  {
    Step(env, n, k, 12, ty, [RGlsl, Lit(number)] + rs, [env.ids.Glsl(), number] + ids);
  }

  lemma BodyCons(env: Env, n: nat, k: nat, m: Micro, rest: seq<Micro>)
    ensures BodyCode(env, n, k, [m] + rest) == [MicroInst(env, n, k, m)] + BodyCode(env, n, k + 1, rest)
  {
    assert ([m] + rest)[1..] == rest;
  }

  lemma Body1(env: Env, n: nat, k: nat, a: Micro)
    ensures BodyCode(env, n, k, [a]) == [MicroInst(env, n, k, a)]
  {
    hide MicroInst;
    BodyCons(env, n, k, a, []);
    assert [a] + [] == [a];
  }

  lemma Body2(env: Env, n: nat, k: nat, a: Micro, b: Micro)
    ensures BodyCode(env, n, k, [a, b]) == [MicroInst(env, n, k, a), MicroInst(env, n, k + 1, b)]
  {
    hide MicroInst, BodyCode;
    BodyCons(env, n, k, a, [b]);
    Body1(env, n, k + 1, b);
    assert [a] + [b] == [a, b];
  }

  lemma Body3(env: Env, n: nat, k: nat, a: Micro, b: Micro, c: Micro)
    ensures BodyCode(env, n, k, [a, b, c]) == [MicroInst(env, n, k, a), MicroInst(env, n, k + 1, b), MicroInst(env, n, k + 2, c)]
  {
    hide MicroInst, BodyCode;
    BodyCons(env, n, k, a, [b, c]);
    Body2(env, n, k + 1, b, c);
    assert [a] + [b, c] == [a, b, c];
  }

  lemma Body4(env: Env, n: nat, k: nat, a: Micro, b: Micro, c: Micro, d: Micro)
    ensures BodyCode(env, n, k, [a, b, c, d]) ==
            [MicroInst(env, n, k, a), MicroInst(env, n, k + 1, b), MicroInst(env, n, k + 2, c), MicroInst(env, n, k + 3, d)]
  {
    hide MicroInst, BodyCode;
    BodyCons(env, n, k, a, [b, c, d]);
    Body3(env, n, k + 1, b, c, d);
    assert [a] + [b, c, d] == [a, b, c, d];
  }

  lemma Body5(env: Env, n: nat, k: nat, a: Micro, b: Micro, c: Micro, d: Micro, e: Micro)
    ensures BodyCode(env, n, k, [a, b, c, d, e]) ==
            [MicroInst(env, n, k, a), MicroInst(env, n, k + 1, b), MicroInst(env, n, k + 2, c), MicroInst(env, n, k + 3, d),
             MicroInst(env, n, k + 4, e)]
  {
    hide MicroInst, BodyCode;
    BodyCons(env, n, k, a, [b, c, d, e]);
    Body4(env, n, k + 1, b, c, d, e);
    assert [a] + [b, c, d, e] == [a, b, c, d, e];
  }

  lemma Body6(env: Env, n: nat, k: nat, a: Micro, b: Micro, c: Micro, d: Micro, e: Micro, f: Micro)
    ensures BodyCode(env, n, k, [a, b, c, d, e, f]) ==
            [MicroInst(env, n, k, a), MicroInst(env, n, k + 1, b), MicroInst(env, n, k + 2, c), MicroInst(env, n, k + 3, d),
             MicroInst(env, n, k + 4, e), MicroInst(env, n, k + 5, f)]
  {
    hide MicroInst, BodyCode;
    BodyCons(env, n, k, a, [b, c, d, e, f]);
    Body5(env, n, k + 1, b, c, d, e, f);
    assert [a] + [b, c, d, e, f] == [a, b, c, d, e, f];
  }

  /** The outline of a recipe that stores a register. */
  predicate Has(r: Recipe, minSrc: nat, loads: nat, steps: nat, val: Ref) {
    r.minSrc == minSrc && r.loads == loads && |r.body| == steps && r.val == val && !r.toPredicate
  }

  /** The outline of a recipe that stores a predicate. */
  predicate Compares(r: Recipe, steps: nat, val: Ref) {
    r.minSrc == 2 && r.loads == 2 && |r.body| == steps && r.val == val && r.toPredicate
  }

  // ── The recipes ────────────────────────────────────────────────────────

  lemma Float2Code(env: Env, n: nat, op: Arith)
    ensures Has(Float2(op), 2, 2, 1, T(2))
    ensures BodyCode(env, n, 2, Float2(op).body) == [Op(op, env.F32(), n + 2, [n, n + 1])]
  {
    hide MicroInst, BodyCode;
    Body1(env, n, 2, Micro(op, RF32, [T(0), T(1)]));
    Step(env, n, 2, op, RF32, [T(0), T(1)], [n, n + 1]);
  }

  lemma FloatExt2Code(env: Env, n: nat, number: nat)
    ensures Has(FloatExt2(number), 2, 2, 1, T(2))
    ensures BodyCode(env, n, 2, FloatExt2(number).body) == [Op(12, env.F32(), n + 2, [env.ids.Glsl(), number] + [n, n + 1])]
  {
    hide MicroInst, BodyCode, Ext;
    Body1(env, n, 2, Ext(number, RF32, [T(0), T(1)]));
    ExtStep(env, n, 2, number, RF32, [T(0), T(1)], [n, n + 1]);
  }

  lemma FloatExt1Code(env: Env, n: nat, number: nat)
    ensures Has(FloatExt1(number), 1, 1, 1, T(1))
    ensures BodyCode(env, n, 1, FloatExt1(number).body) == [Op(12, env.F32(), n + 1, [env.ids.Glsl(), number] + [n])]
  {
    hide MicroInst, BodyCode, Ext;
    Body1(env, n, 1, Ext(number, RF32, [T(0)]));
    ExtStep(env, n, 1, number, RF32, [T(0)], [n]);
  }

  lemma ClampCode(env: Env, n: nat)
    ensures Has(Clamp(), 1, 1, 1, T(1))
    ensures BodyCode(env, n, 1, Clamp().body) == [Op(12, env.F32(), n + 1, [env.ids.Glsl(), 43] + [n, env.Zero(), env.One()])]
  {
    hide MicroInst, BodyCode, Ext;
    Body1(env, n, 1, Ext(43, RF32, [T(0), RZero, ROne]));
    ExtStep(env, n, 1, 43, RF32, [T(0), RZero, ROne], [n, env.Zero(), env.One()]);
  }

  lemma MulAddCode(env: Env, n: nat)
    ensures Has(MulAdd(), 3, 3, 2, T(4))
    ensures BodyCode(env, n, 3, MulAdd().body) == [Op(133, env.F32(), n + 3, [n, n + 1]), Op(129, env.F32(), n + 4, [n + 3, n + 2])]
  {
    hide MicroInst, BodyCode;
    Body2(env, n, 3, Micro(133, RF32, [T(0), T(1)]), Micro(129, RF32, [T(3), T(2)]));
    Step(env, n, 3, 133, RF32, [T(0), T(1)], [n, n + 1]);
    Step(env, n, 4, 129, RF32, [T(3), T(2)], [n + 3, n + 2]);
  }

  lemma FloatNegCode(env: Env, n: nat)
    ensures Has(FloatNeg(), 1, 1, 1, T(1))
    ensures BodyCode(env, n, 1, FloatNeg().body) == [Op(127, env.F32(), n + 1, [n])]
  {
    hide MicroInst, BodyCode;
    Body1(env, n, 1, Micro(127, RF32, [T(0)]));
    Step(env, n, 1, 127, RF32, [T(0)], [n]);
  }

  lemma ReciprocalCode(env: Env, n: nat)
    ensures Has(Reciprocal(), 1, 1, 1, T(1))
    ensures BodyCode(env, n, 1, Reciprocal().body) == [Op(136, env.F32(), n + 1, [env.One(), n])]
  {
    hide MicroInst, BodyCode;
    Body1(env, n, 1, Micro(136, RF32, [ROne, T(0)]));
    Step(env, n, 1, 136, RF32, [ROne, T(0)], [env.One(), n]);
  }

  lemma Int2Code(env: Env, n: nat, op: Arith)
    ensures Has(Int2(op), 2, 2, 4, T(5))
    ensures BodyCode(env, n, 2, Int2(op).body) ==
            [Op(124, env.I32(), n + 2, [n]), Op(124, env.I32(), n + 3, [n + 1]), Op(op, env.I32(), n + 4, [n + 2, n + 3]),
             Op(124, env.F32(), n + 5, [n + 4])]
  {
    hide MicroInst, BodyCode, Bc;
    Body4(env, n, 2, Bc(RI32, 0), Bc(RI32, 1), Micro(op, RI32, [T(2), T(3)]), Bc(RF32, 4));
    BitcastStep(env, n, 2, RI32, 0);
    BitcastStep(env, n, 3, RI32, 1);
    Step(env, n, 4, op, RI32, [T(2), T(3)], [n + 2, n + 3]);
    BitcastStep(env, n, 5, RF32, 4);
  }

  lemma ShiftCode(env: Env, n: nat, op: Arith)
    ensures Has(Shift(op), 2, 2, 4, T(5))
    ensures BodyCode(env, n, 2, Shift(op).body) ==
            [Op(124, env.I32(), n + 2, [n]), Op(124, env.U32(), n + 3, [n + 1]), Op(op, env.I32(), n + 4, [n + 2, n + 3]),
             Op(124, env.F32(), n + 5, [n + 4])]
  {
    hide MicroInst, BodyCode, Bc;
    Body4(env, n, 2, Bc(RI32, 0), Bc(RU32, 1), Micro(op, RI32, [T(2), T(3)]), Bc(RF32, 4));
    BitcastStep(env, n, 2, RI32, 0);
    BitcastStep(env, n, 3, RU32, 1);
    Step(env, n, 4, op, RI32, [T(2), T(3)], [n + 2, n + 3]);
    BitcastStep(env, n, 5, RF32, 4);
  }

  lemma Int3Code(env: Env, n: nat, op: Arith)
    ensures Has(Int3(op), 3, 3, 6, T(8))
    ensures BodyCode(env, n, 3, Int3(op).body) ==
            [Op(124, env.I32(), n + 3, [n]), Op(124, env.I32(), n + 4, [n + 1]), Op(124, env.I32(), n + 5, [n + 2]),
             Op(op, env.I32(), n + 6, [n + 3, n + 4]), Op(128, env.I32(), n + 7, [n + 6, n + 5]), Op(124, env.F32(), n + 8, [n + 7])]
  {
    hide MicroInst, BodyCode, Bc;
    Body6(env, n, 3, Bc(RI32, 0), Bc(RI32, 1), Bc(RI32, 2), Micro(op, RI32, [T(3), T(4)]), Micro(128, RI32, [T(6), T(5)]), Bc(RF32, 7));
    BitcastStep(env, n, 3, RI32, 0);
    BitcastStep(env, n, 4, RI32, 1);
    BitcastStep(env, n, 5, RI32, 2);
    Step(env, n, 6, op, RI32, [T(3), T(4)], [n + 3, n + 4]);
    Step(env, n, 7, 128, RI32, [T(6), T(5)], [n + 6, n + 5]);
    BitcastStep(env, n, 8, RF32, 7);
  }

  lemma IntNegCode(env: Env, n: nat)
    ensures Has(IntNeg(), 1, 1, 3, T(3))
    ensures BodyCode(env, n, 1, IntNeg().body) ==
            [Op(124, env.I32(), n + 1, [n]), Op(126, env.I32(), n + 2, [n + 1]), Op(124, env.F32(), n + 3, [n + 2])]
  {
    hide MicroInst, BodyCode, Bc;
    Body3(env, n, 1, Bc(RI32, 0), Micro(126, RI32, [T(1)]), Bc(RF32, 2));
    BitcastStep(env, n, 1, RI32, 0);
    Step(env, n, 2, 126, RI32, [T(1)], [n + 1]);
    BitcastStep(env, n, 3, RF32, 2);
  }

  lemma IntAbsCode(env: Env, n: nat)
    ensures Has(IntAbs(), 1, 1, 3, T(3))
    ensures BodyCode(env, n, 1, IntAbs().body) ==
            [Op(124, env.I32(), n + 1, [n]), Op(12, env.I32(), n + 2, [env.ids.Glsl(), 5] + [n + 1]), Op(124, env.F32(), n + 3, [n + 2])]
  {
    hide MicroInst, BodyCode, Bc, Ext;
    Body3(env, n, 1, Bc(RI32, 0), Ext(5, RI32, [T(1)]), Bc(RF32, 2));
    BitcastStep(env, n, 1, RI32, 0);
    ExtStep(env, n, 2, 5, RI32, [T(1)], [n + 1]);
    BitcastStep(env, n, 3, RF32, 2);
  }

  lemma ToIntCode(env: Env, n: nat)
    ensures Has(ToInt(), 1, 1, 2, T(2))
    ensures BodyCode(env, n, 1, ToInt().body) == [Op(110, env.I32(), n + 1, [n]), Op(124, env.F32(), n + 2, [n + 1])]
  {
    hide MicroInst, BodyCode, Bc;
    Body2(env, n, 1, Micro(110, RI32, [T(0)]), Bc(RF32, 1));
    Step(env, n, 1, 110, RI32, [T(0)], [n]);
    BitcastStep(env, n, 2, RF32, 1);
  }

  lemma ToFloatCode(env: Env, n: nat)
    ensures Has(ToFloat(), 1, 1, 2, T(2))
    ensures BodyCode(env, n, 1, ToFloat().body) == [Op(124, env.I32(), n + 1, [n]), Op(111, env.F32(), n + 2, [n + 1])]
  {
    hide MicroInst, BodyCode, Bc;
    Body2(env, n, 1, Bc(RI32, 0), Micro(111, RF32, [T(1)]));
    BitcastStep(env, n, 1, RI32, 0);
    Step(env, n, 2, 111, RF32, [T(1)], [n + 1]);
  }

  lemma BitExtractCode(env: Env, n: nat)
    ensures Has(BitExtract(), 3, 3, 5, T(7))
    ensures BodyCode(env, n, 3, BitExtract().body) ==
            [Op(124, env.U32(), n + 3, [n]), Op(124, env.U32(), n + 4, [n + 1]), Op(124, env.U32(), n + 5, [n + 2]),
             Op(177, env.U32(), n + 6, [n + 3, n + 4, n + 5]), Op(124, env.F32(), n + 7, [n + 6])]
  {
    hide MicroInst, BodyCode, Bc;
    Body5(env, n, 3, Bc(RU32, 0), Bc(RU32, 1), Bc(RU32, 2), Micro(177, RU32, [T(3), T(4), T(5)]), Bc(RF32, 6));
    BitcastStep(env, n, 3, RU32, 0);
    BitcastStep(env, n, 4, RU32, 1);
    BitcastStep(env, n, 5, RU32, 2);
    Step(env, n, 6, 177, RU32, [T(3), T(4), T(5)], [n + 3, n + 4, n + 5]);
    BitcastStep(env, n, 7, RF32, 6);
  }

  lemma BitInsertCode(env: Env, n: nat)
    ensures Has(BitInsert(), 3, 3, 6, T(8))
    ensures BodyCode(env, n, 3, BitInsert().body) ==
            [Op(124, env.U32(), n + 3, [n]), Op(124, env.U32(), n + 4, [n + 1]), Op(124, env.U32(), n + 5, [n + 2]),
             Op(43, env.U32(), n + 6, [32]), Op(175, env.U32(), n + 7, [n + 3, n + 4, n + 5, n + 6]), Op(124, env.F32(), n + 8, [n + 7])]
  {
    hide MicroInst, BodyCode, Bc;
    Body6(env, n, 3, Bc(RU32, 0), Bc(RU32, 1), Bc(RU32, 2), Micro(43, RU32, [Lit(32)]),
          Micro(175, RU32, [T(3), T(4), T(5), T(6)]), Bc(RF32, 7));
    BitcastStep(env, n, 3, RU32, 0);
    BitcastStep(env, n, 4, RU32, 1);
    BitcastStep(env, n, 5, RU32, 2);
    Step(env, n, 6, 43, RU32, [Lit(32)], [32]);
    Step(env, n, 7, 175, RU32, [T(3), T(4), T(5), T(6)], [n + 3, n + 4, n + 5, n + 6]);
    BitcastStep(env, n, 8, RF32, 7);
  }

  lemma IntMaxCode(env: Env, n: nat)
    ensures Has(IntMax(), 2, 2, 5, T(6))
    ensures BodyCode(env, n, 2, IntMax().body) ==
            [Op(124, env.I32(), n + 2, [n]), Op(124, env.I32(), n + 3, [n + 1]), Op(142, env.Bool(), n + 4, [n + 2, n + 3]),
             Op(169, env.I32(), n + 5, [n + 4, n + 2, n + 3]), Op(124, env.F32(), n + 6, [n + 5])]
  {
    hide MicroInst, BodyCode, Bc;
    Body5(env, n, 2, Bc(RI32, 0), Bc(RI32, 1), Micro(142, RBool, [T(2), T(3)]), Micro(169, RI32, [T(4), T(2), T(3)]), Bc(RF32, 5));
    BitcastStep(env, n, 2, RI32, 0);
    BitcastStep(env, n, 3, RI32, 1);
    Step(env, n, 4, 142, RBool, [T(2), T(3)], [n + 2, n + 3]);
    Step(env, n, 5, 169, RI32, [T(4), T(2), T(3)], [n + 4, n + 2, n + 3]);
    BitcastStep(env, n, 6, RF32, 5);
  }

  lemma FloatSetCode(env: Env, n: nat)
    ensures Has(FloatSet(), 2, 2, 2, T(3))
    ensures BodyCode(env, n, 2, FloatSet().body) ==
            [Op(156, env.Bool(), n + 2, [n, n + 1]), Op(169, env.F32(), n + 3, [n + 2, env.One(), env.Zero()])]
  {
    hide MicroInst, BodyCode;
    Body2(env, n, 2, Micro(156, RBool, [T(0), T(1)]), Micro(169, RF32, [T(2), ROne, RZero]));
    Step(env, n, 2, 156, RBool, [T(0), T(1)], [n, n + 1]);
    Step(env, n, 3, 169, RF32, [T(2), ROne, RZero], [n + 2, env.One(), env.Zero()]);
  }

  lemma AddressCode(env: Env, n: nat)
    ensures Has(Address(), 2, 2, 6, T(7))
    ensures BodyCode(env, n, 2, Address().body) ==
            [Op(124, env.U32(), n + 2, [n]), Op(124, env.U32(), n + 3, [n + 1]), Op(43, env.U32(), n + 4, [2]),
             Op(165, env.U32(), n + 5, [n + 3, n + 4]), Op(128, env.U32(), n + 6, [n + 2, n + 5]), Op(124, env.F32(), n + 7, [n + 6])]
  {
    hide MicroInst, BodyCode, Bc;
    Body6(env, n, 2, Bc(RU32, 0), Bc(RU32, 1), Micro(43, RU32, [Lit(2)]), Micro(165, RU32, [T(3), T(4)]),
          Micro(128, RU32, [T(2), T(5)]), Bc(RF32, 6));
    BitcastStep(env, n, 2, RU32, 0);
    BitcastStep(env, n, 3, RU32, 1);
    Step(env, n, 4, 43, RU32, [Lit(2)], [2]);
    Step(env, n, 5, 165, RU32, [T(3), T(4)], [n + 3, n + 4]);
    Step(env, n, 6, 128, RU32, [T(2), T(5)], [n + 2, n + 5]);
    BitcastStep(env, n, 7, RF32, 6);
  }

  lemma ConstantLoadCode(env: Env, n: nat)
    ensures Has(ConstantLoad(), 1, 1, 3, T(3))
    ensures BodyCode(env, n, 1, ConstantLoad().body) ==
            [Op(124, env.U32(), n + 1, [n]), Op(65, env.F32UniformPtr(), n + 2, [env.ids.CbufVar(), env.Zero(), n + 1]),
             Op(61, env.F32(), n + 3, [n + 2])]
  {
    hide MicroInst, BodyCode, Bc;
    Body3(env, n, 1, Bc(RU32, 0), Micro(65, RUniformPtr, [RCbuf, RZero, T(1)]), Micro(61, RF32, [T(2)]));
    BitcastStep(env, n, 1, RU32, 0);
    Step(env, n, 2, 65, RUniformPtr, [RCbuf, RZero, T(1)], [env.ids.CbufVar(), env.Zero(), n + 1]);
    Step(env, n, 3, 61, RF32, [T(2)], [n + 2]);
  }

  lemma SampleCode(env: Env, n: nat)
    requires env.ids.tex != 0
    ensures Has(Sample(env.ids.tex), 2, 1, 3, T(3))
    ensures BodyCode(env, n, 1, Sample(env.ids.tex).body) ==
            [Op(80, env.Vec2F32(), n + 1, [n, n]), Op(61, env.ImagePtr(), n + 2, [env.ids.tex]),
             Op(88, env.Vec4F32(), n + 3, [n + 2, n + 1, env.Zero()])]
  {
    hide MicroInst, BodyCode;
    Body3(env, n, 1, Micro(80, RVec2, [T(0), T(0)]), Micro(61, RImagePtr, [RTex]), Micro(88, RVec4, [T(2), T(1), RZero]));
    Step(env, n, 1, 80, RVec2, [T(0), T(0)], [n, n]);
    Step(env, n, 2, 61, RImagePtr, [RTex], [env.ids.tex]);
    Step(env, n, 3, 88, RVec4, [T(2), T(1), RZero], [n + 2, n + 1, env.Zero()]);
  }

  lemma IntCompareCode(env: Env, n: nat)
    ensures Compares(IntCompare(), 3, T(4))
    ensures BodyCode(env, n, 2, IntCompare().body) ==
            [Op(124, env.I32(), n + 2, [n]), Op(124, env.I32(), n + 3, [n + 1]), Op(143, env.Bool(), n + 4, [n + 2, n + 3])]
  {
    hide MicroInst, BodyCode, Bc;
    Body3(env, n, 2, Bc(RI32, 0), Bc(RI32, 1), Micro(143, RBool, [T(2), T(3)]));
    BitcastStep(env, n, 2, RI32, 0);
    BitcastStep(env, n, 3, RI32, 1);
    Step(env, n, 4, 143, RBool, [T(2), T(3)], [n + 2, n + 3]);
  }

  lemma FloatCompareCode(env: Env, n: nat)
    ensures Compares(FloatCompare(), 1, T(2))
    ensures BodyCode(env, n, 2, FloatCompare().body) == [Op(156, env.Bool(), n + 2, [n, n + 1])]
  {
    hide MicroInst, BodyCode;
    Body1(env, n, 2, Micro(156, RBool, [T(0), T(1)]));
    Step(env, n, 2, 156, RBool, [T(0), T(1)], [n, n + 1]);
  }

  // ── The control-flow pass after other code ─────────────────────────────

  /** A state of the pass with other code in front. */
  function Behind(front: seq<Inst>, s: S): S {
    s.(code := front + s.code)
  }

  lemma MergeBehind(front: seq<Inst>, s: S)
    ensures Merge(Behind(front, s)) == Behind(front, Merge(s))
  {
    if s.stack != [] {
      Associative(front, s.code, MergeCode(s.stack[|s.stack| - 1]));
    }
  }

  lemma BranchBehind(front: seq<Inst>, s: S, pc: u32)
    ensures BranchTo(Behind(front, s), pc) == Behind(front, BranchTo(s, pc))
    ensures BranchTo(s, pc).next >= s.next
  {
    Associative(front, s.code, [Inst(249, [Reserve(s, pc).labels[pc]])]);
  }

  lemma PutBehind(front: seq<Inst>, s: S, i: Inst)
    ensures Put(Behind(front, s), i) == Behind(front, Put(s, i))
  {
    Associative(front, s.code, [i]);
  }

  lemma ConditionBehind(env: Env, front: seq<Inst>, s: S, i: IrInst)
    ensures ConditionCode(env, Behind(front, s), i) == (Behind(front, ConditionCode(env, s, i).0), ConditionCode(env, s, i).1)
    ensures ConditionCode(env, s, i).0.next >= s.next
  {
    if i.guardIndex in s.preds {
      PutBehind(front, s, Inst(61, [env.Bool(), s.next, s.preds[i.guardIndex]]));
    }
  }

  lemma GuardedBehind(env: Env, front: seq<Inst>, s: S, i: IrInst, falsePc: u32)
    ensures GuardedBranch(env, Behind(front, s), i, falsePc) == Behind(front, GuardedBranch(env, s, i, falsePc))
    ensures GuardedBranch(env, s, i, falsePc).next >= s.next
  {
    hide Merge, ConditionCode, Put;
    MergeBehind(front, s);
    MergeNext(s);
    var target := LabelPc(i.src0);
    var s1 := Reserve(Merge(s), target);
    var s2 := Reserve(s1, falsePc);
    ConditionBehind(env, front, s2, i);
    var (s3, cond) := ConditionCode(env, s2, i);
    var trueLabel, falseLabel := s1.labels[target], s2.labels[falsePc];
    var branch := if i.guardNegate then Inst(250, [cond, falseLabel, trueLabel]) else Inst(250, [cond, trueLabel, falseLabel]);
    PutBehind(front, s3, branch);
    PutBehind(front, Put(s3, branch), Inst(248, [falseLabel]));
    PutNext(s3, branch);
    PutNext(Put(s3, branch), Inst(248, [falseLabel]));
  }

  lemma MergeNext(s: S)
    ensures Merge(s).next == s.next
  {
  }

  lemma PutNext(s: S, i: Inst)
    ensures Put(s, i).next == s.next
  {
  }

  lemma InstNext(env: Env, vars: map<nat, nat>, preds: map<nat, nat>, i: IrInst, next: nat)
    ensures InstOut(env, vars, preds, i, next).next >= next
  {
    hide RecipeOf, LoadCode, BodyCode, RefId;
  }

  lemma DispatchBehind(env: Env, vars: map<nat, nat>, insts: seq<IrInst>, cfg: Cfg, n: nat, front: seq<Inst>, s: S)
    requires n < |insts|
    ensures Dispatch(env, vars, insts, cfg, n, Behind(front, s)) == Behind(front, Dispatch(env, vars, insts, cfg, n, s))
    ensures Dispatch(env, vars, insts, cfg, n, s).next >= s.next
  {
    hide InstOut, GuardedBranch, BranchTo, Merge, PopSync, PushSsy, Continue;
    var i := insts[n];
    if i.opcode == Ctl(BRA) {
      MergeBehind(front, s);
      MergeNext(s);
      BranchBehind(front, Merge(s), LabelPc(i.src0));
      GuardedBehind(env, front, s, i, FalsePc(insts, n));
    } else if i.opcode == Ctl(BREAK) && s.stack != [] {
      BranchBehind(front, s, s.stack[|s.stack| - 1].syncPc);
    }
    SyncBehind(cfg, front, s, i.pc);
    ContinueBehind(cfg, front, s);
    var o := InstOut(env, vars, s.preds, i, s.next);
    InstNext(env, vars, s.preds, i, s.next);
    Associative(front, s.code, o.code);
  }

  lemma SyncBehind(cfg: Cfg, front: seq<Inst>, s: S, pc: u32)
    ensures PopSync(Behind(front, s), pc) == Behind(front, PopSync(s, pc)) && PopSync(s, pc).next >= s.next
    ensures PushSsy(cfg, Behind(front, s), pc) == Behind(front, PushSsy(cfg, s, pc)) && PushSsy(cfg, s, pc).next >= s.next
  {
  }

  lemma ContinueBehind(cfg: Cfg, front: seq<Inst>, s: S)
    ensures Continue(cfg, Behind(front, s)) == Behind(front, Continue(cfg, s)) && Continue(cfg, s).next >= s.next
  {
    hide BranchTo;
    if s.stack != [] {
      var q := PairAt(cfg.pairs, s.stack[|s.stack| - 1].ssyPc);
      if q.Some? {
        BranchBehind(front, s, q.value.braTarget);
      }
    }
  }

  lemma StartBehind(cfg: Cfg, front: seq<Inst>, s: S, pc: u32)
    ensures StartBlock(cfg, Behind(front, s), pc) == Behind(front, StartBlock(cfg, s, pc))
    ensures StartBlock(cfg, s, pc).next >= s.next
  {
    PutBehind(front, s, Inst(248, [s.next]));
  }

  /** The pass adds the same code whatever is in front of it, and never gives an id back. */
  lemma {:induction false} FlowBehind(env: Env, vars: map<nat, nat>, insts: seq<IrInst>, cfg: Cfg, n: nat, front: seq<Inst>, s: S)
    requires n <= |insts|
    ensures Flow(env, vars, insts, cfg, n, Behind(front, s)) == Behind(front, Flow(env, vars, insts, cfg, n, s))
    ensures Flow(env, vars, insts, cfg, n, s).next >= s.next
  {
    hide Dispatch, StartBlock, Behind;
    if n == 0 {
    } else {
      FlowBehind(env, vars, insts, cfg, n - 1, front, s);
      var before := Flow(env, vars, insts, cfg, n - 1, s);
      StartBehind(cfg, front, before, insts[n - 1].pc);
      DispatchBehind(env, vars, insts, cfg, n - 1, front, StartBlock(cfg, before, insts[n - 1].pc));
    }
  }
}
