/**
 The SPIR-V emitter: an object that appends words, hands out ids and keeps the
 state of its passes in fields. Each method is proved to add exactly the
 instructions its specification lists.
 */
module SpirvEmitter {
  import opened Common
  import opened Sequences
  import opened Spirv
  import opened ShaderIr
  import opened EmitterSpec
  import opened EmitterLowering

  const HEADER: seq<nat> := [0x0723_0203, 0x0001_0000, 0, 0, 0]

  lemma EncodeSnoc(code: seq<Inst>, i: Inst)
    ensures EncodeAll(code + [i]) == EncodeAll(code) + Encode(i)
  {
    assert (code + [i])[..|code|] == code;
  }

  /** The ids of the types, as fields. */
  datatype TypeIds = TypeIds(
    void_: nat, bool_: nat, f32: nat, i32: nat, u32_: nat, vec2f32: nat, vec4f32: nat, f32FnPtr: nat, inputPtr: nat,
    outputPtr: nat, f32UniformPtr: nat, imagePtr: nat, cbufArray: nat, cbufStruct: nat, cbufPtr: nat)

  function TypesOf(ids: Ids): TypeIds {
    var b := ids.base;
    TypeIds(b, b + 1, b + 2, b + 3, b + 4, b + 5, b + 7, b + 14, b + 15, b + 16, b + 17, b + 19,
            ids.CbufArray(), ids.CbufStruct(), b + 21)
  }

  const NO_TYPES := TypeIds(0, 0, 0, 0, 0, 0, 0, 0, 0, 0, 0, 0, 0, 0, 0)

  class Emitter {
    var words: seq<nat>
    var nextId: nat
    var bound: nat
    var types: TypeIds
    var glslExt: nat
    var cbufVar: nat
    var texVar: nat
    var constZero: nat
    var constOne: nat
    var constTrue: nat
    var constFalse: nat
    var io: seq<nat>
    // The state of the control-flow pass.
    var labels: map<u32, nat>
    var stack: seq<SsyEntry>
    var preds: map<nat, nat>
    var emitted: set<u32>
    /** The instructions the words encode, and the bound when the module was begun. */
    ghost var code: seq<Inst>
    ghost var floor: nat

    /** The words are the header and the encoded instructions; the bound covers every id. */
    ghost predicate Synced()
      reads this`words, this`code, this`nextId, this`bound, this`floor
    {
      && words == HEADER + EncodeAll(code)
      && nextId >= 1
      && bound == if nextId == 1 || nextId < floor then floor else nextId
    }

    constructor ()
      ensures bound == 0 && texVar == 0
    {
      words, nextId, bound, types := [], 1, 0, NO_TYPES;
      glslExt, cbufVar, texVar, constZero, constOne, constTrue, constFalse := 0, 0, 0, 0, 0, 0, 0;
      io, labels, stack, preds, emitted := [], map[], [], map[], {};
      code, floor := [], 0;
    }

    // ── Words and ids ────────────────────────────────────────────────────

    method AllocId() returns (id: nat)
      requires Synced()
      modifies this`nextId, this`bound
      ensures Synced() && id == old(nextId) && nextId == id + 1
    {
      id := nextId;
      nextId := nextId + 1;
      bound := if bound < id + 1 then id + 1 else bound;
    }

    method EmitWord(word: nat)
      modifies this`words
      ensures words == old(words) + [word]
    {
      words := words + [word];
    }

    method EmitWords(span: seq<nat>)
      modifies this`words
      ensures words == old(words) + span
    {
      words := words + span;
    }

    /** A word count and an opcode, then the operands one by one. */
    method EmitInst(op: nat, operands: seq<nat>)
      requires Synced()
      modifies this`words, this`code
      ensures Synced() && code == old(code) + [Inst(op, operands)]
    {
      hide EncodeAll;
      ghost var i := Inst(op, operands);
      ghost var start := words;
      EmitWord((|operands| + 1) * WORD + op);
      for k := 0 to |operands|
        modifies this`words
        invariant words == start + Encode(i)[..k + 1]
      {
        EmitWord(operands[k]);
        assert Encode(i)[..k + 2] == Encode(i)[..k + 1] + [operands[k]];
      }
      assert Encode(i)[..|operands| + 1] == Encode(i);
      EncodeSnoc(code, i);
      assert words == HEADER + EncodeAll(code) + Encode(i) == HEADER + EncodeAll(code + [i]);
      code := code + [i];
    }

    /** An operation on a result type, under a new id. */
    method EmitOp(op: nat, ty: nat, args: seq<nat>) returns (id: nat, ghost inst: Inst)
      requires Synced()
      modifies this`words, this`code, this`nextId, this`bound
      ensures Synced() && id == old(nextId) && nextId == id + 1 && inst == Op(op, ty, id, args) && code == old(code) + [inst]
    {
      id := AllocId();
      EmitInst(op, [ty, id] + args);
      inst := Op(op, ty, id, args);
    }

    /** An instruction of the extended set. */
    method EmitExtInst(ty: nat, number: nat, operands: seq<nat>) returns (id: nat, ghost inst: Inst)
      requires Synced()
      modifies this`words, this`code, this`nextId, this`bound
      ensures Synced() && id == old(nextId) && nextId == id + 1
      ensures inst == Op(12, ty, id, [glslExt, number] + operands) && code == old(code) + [inst]
    {
      id, inst := EmitOp(12, ty, [glslExt, number] + operands);
    }

    /** A declaration whose new id is its first operand. */
    method EmitDecl(op: nat, args: seq<nat>) returns (id: nat)
      requires Synced()
      modifies this`words, this`code, this`nextId, this`bound
      ensures Synced() && id == old(nextId) && nextId == id + 1 && code == old(code) + [Inst(op, [id] + args)]
    {
      id := AllocId();
      EmitInst(op, [id] + args);
    }

    /** Four bytes of a string, the first in the low bits. */
    method PackWord(s: string, i: nat) returns (word: nat)
      requires i % 4 == 0 && forall k :: 0 <= k < |s| ==> s[k] as int < 0x100
      ensures word == StringWord(s, i / 4)
    {
      word := 0;
      var shift := 1;
      for j := 0 to 4
        invariant shift == [1, 0x100, 0x1_0000, 0x100_0000, 0x1_0000_0000][j]
        invariant word == PartialWord(s, i, j)
      {
        if i + j < |s| {
          word := word + (s[i + j] as int) * shift;
        }
        shift := shift * 0x100;
      }
    }

    /** The words of a string with its terminator, padded with zeros. */
    method EmitString(s: string)
      requires forall k :: 0 <= k < |s| ==> s[k] as int < 0x100
      modifies this`words
      ensures words == old(words) + StringWords(s)
    {
      var padded := (|s| + 4) / 4 * 4;
      var i := 0;
      ghost var start := words;
      while i < padded
        invariant i % 4 == 0 && i <= padded
        invariant words == start + StringWords(s)[..i / 4]
      {
        var word := PackWord(s, i);
        EmitWord(word);
        i := i + 4;
        assert StringWords(s)[..i / 4] == StringWords(s)[..i / 4 - 1] + [StringWord(s, i / 4 - 1)];
      }
      assert StringWords(s)[..padded / 4] == StringWords(s);
    }
  
    // ── Lowering one instruction ─────────────────────────────────────────

    /** The fields hold the ids of the environment. */
    ghost predicate Ready(env: Env)
      reads this
    {
      && types == TypesOf(env.ids) && glslExt == env.ids.Glsl() && cbufVar == env.ids.CbufVar() && texVar == env.ids.tex
      && constZero == env.Zero() && constOne == env.One() && constTrue == env.True()
    }

    /** What lowering needs: everything in step, and variables that are real ids. */
    ghost predicate BodyReady(env: Env, vars: map<nat, nat>)
      reads this
    {
      Synced() && Ready(env) && forall r :: r in vars ==> vars[r] != 0
    }

    /** The code, the ids and the predicate variables are those of the specification. */
    twostate predicate Lowered(env: Env, vars: map<nat, nat>, i: IrInst, r: Recipe)
      requires r.loads <= 3
      reads this
    {
      var o := RecipeOut(env, vars, old(preds), i, r, old(nextId));
      Synced() && code == old(code) + o.code && nextId == o.next && preds == o.preds
    }

    /** The same for an opcode that may have no recipe. */
    twostate predicate LoweredAs(env: Env, vars: map<nat, nat>, i: IrInst, r: Option<Recipe>)
      requires r.Some? ==> r.value.loads <= 3
      reads this
    {
      match r
      case None => Synced() && code == old(code) && nextId == old(nextId) && preds == old(preds)
      case Some(r) => Lowered(env, vars, i, r)
    }

    /** The variable of a register, or 0. */
    function GetGpr(vars: map<nat, nat>, r: nat): nat {
      if r in vars then vars[r] else 0
    }

    method LoadGpr(vars: map<nat, nat>, r: nat) returns (id: nat)
      requires Synced() && (r in vars ==> vars[r] != 0)
      modifies this`words, this`code, this`nextId, this`bound
      ensures Synced()
      ensures r in vars ==> id == old(nextId) && nextId == id + 1 && code == old(code) + [Inst(61, [types.f32, id, vars[r]])]
      ensures r !in vars ==> id == 0 && nextId == old(nextId) && code == old(code)
    {
      id := 0;
      var variable := GetGpr(vars, r);
      if variable != 0 {
        ghost var inst: Inst;
        id, inst := EmitOp(61, types.f32, [variable]);
        assert inst == Inst(61, [types.f32, id, vars[r]]);
      }
    }

    method LoadOne(ghost env: Env, vars: map<nat, nat>, i: IrInst) returns (s0: nat)
      requires BodyReady(env, vars)
      modifies this`words, this`code, this`nextId, this`bound
      ensures Synced() && code == old(code) + LoadCode(env, vars, i, 1, old(nextId)) && nextId == old(nextId) + Mapped(vars, i, 1)
      ensures s0 != 0 <==> Mapped(vars, i, 1) == 1
      ensures s0 != 0 ==> s0 == old(nextId)
    {
      hide EncodeAll;
      s0 := LoadGpr(vars, i.src0.Reg());
      LoadsGrow(env, vars, i, 0, old(nextId), old(code));
    }

    method LoadTwo(ghost env: Env, vars: map<nat, nat>, i: IrInst) returns (s0: nat, s1: nat)
      requires BodyReady(env, vars)
      modifies this`words, this`code, this`nextId, this`bound
      ensures Synced() && code == old(code) + LoadCode(env, vars, i, 2, old(nextId)) && nextId == old(nextId) + Mapped(vars, i, 2)
      ensures s0 != 0 && s1 != 0 <==> Mapped(vars, i, 2) == 2
      ensures s0 != 0 && s1 != 0 ==> s0 == old(nextId) && s1 == old(nextId) + 1
    {
      hide EncodeAll, LoadCode;
      s0 := LoadOne(env, vars, i);
      s1 := LoadGpr(vars, i.src1.Reg());
      LoadsGrow(env, vars, i, 1, old(nextId), old(code));
    }

    method LoadThree(ghost env: Env, vars: map<nat, nat>, i: IrInst) returns (s0: nat, s1: nat, s2: nat)
      requires BodyReady(env, vars)
      modifies this`words, this`code, this`nextId, this`bound
      ensures Synced() && code == old(code) + LoadCode(env, vars, i, 3, old(nextId)) && nextId == old(nextId) + Mapped(vars, i, 3)
      ensures s0 != 0 && s1 != 0 && s2 != 0 <==> Mapped(vars, i, 3) == 3
      ensures s0 != 0 && s1 != 0 && s2 != 0 ==> s0 == old(nextId) && s1 == old(nextId) + 1 && s2 == old(nextId) + 2
    {
      hide EncodeAll, LoadCode;
      s0, s1 := LoadTwo(env, vars, i);
      s2 := LoadGpr(vars, i.src2.Reg());
      LoadsGrow(env, vars, i, 2, old(nextId), old(code));
    }

    method StoreGpr(vars: map<nat, nat>, r: nat, value: nat)
      requires Synced() && (r in vars ==> vars[r] != 0)
      modifies this`words, this`code
      ensures Synced() && code == old(code) + if r in vars then [Inst(62, [vars[r], value])] else []
    {
      var variable := GetGpr(vars, r);
      if variable != 0 {
        EmitInst(62, [variable, value]);
      }
    }

    /**
     The sources of a recipe, when the instruction has enough of them and each has
     a variable; otherwise the lowering ends here.
     */
    method Sources(ghost env: Env, vars: map<nat, nat>, i: IrInst, minSrc: nat, loads: nat, ghost r: Recipe)
      returns (ok: bool, s0: nat, s1: nat, s2: nat)
      requires BodyReady(env, vars) && minSrc == r.minSrc && 1 <= loads == r.loads <= 3
      modifies this`words, this`code, this`nextId, this`bound
      ensures Synced()
      ensures !ok ==> Lowered(env, vars, i, r)
      ensures ok ==> minSrc <= i.srcCount && Mapped(vars, i, loads) == loads && nextId == old(nextId) + loads
      ensures ok ==> code == old(code) + LoadCode(env, vars, i, loads, old(nextId))
      ensures ok ==> s0 == old(nextId) && (loads >= 2 ==> s1 == s0 + 1) && (loads >= 3 ==> s2 == s0 + 2)
    {
      hide EncodeAll, LoadCode, BodyCode, RefId, StoreOut, Mapped;
      NothingLast(code);
      ok, s0, s1, s2 := false, 0, 0, 0;
      if i.srcCount >= minSrc {
        if loads == 1 {
          s0 := LoadOne(env, vars, i);
          ok := s0 != 0;
        } else if loads == 2 {
          s0, s1 := LoadTwo(env, vars, i);
          ok := s0 != 0 && s1 != 0;
        } else {
          s0, s1, s2 := LoadThree(env, vars, i);
          ok := s0 != 0 && s1 != 0 && s2 != 0;
        }
      }
    }

    /** Stores the value of a recipe whose loads and steps are emitted. */
    method StoreResult(ghost env: Env, vars: map<nat, nat>, i: IrInst, value: nat, ghost r: Recipe, ghost start: seq<Inst>, ghost n: nat)
      requires BodyReady(env, vars) && r.loads <= 3 && r.minSrc <= i.srcCount && !r.toPredicate && r.val != RTex
      requires Mapped(vars, i, r.loads) == r.loads && value == RefId(env, n, r.val) && nextId == n + r.loads + |r.body|
      requires code == start + LoadCode(env, vars, i, r.loads, n) + BodyCode(env, n, r.loads, r.body)
      modifies this`words, this`code
      ensures var o := RecipeOut(env, vars, preds, i, r, n); Synced() && code == start + o.code && nextId == o.next && preds == o.preds
    {
      hide EncodeAll, LoadCode, BodyCode, RefId;
      StoreGpr(vars, i.dest.Reg(), value);
      var store := if i.dest.Reg() in vars then [Inst(62, [vars[i.dest.Reg()], value])] else [];
      Associative3(start, LoadCode(env, vars, i, r.loads, n), BodyCode(env, n, r.loads, r.body), store);
    }

    /** The first two sources, reinterpreted. */
    method EmitBitcasts(ty0: nat, ty1: nat, s0: nat, s1: nat) returns (x: nat, y: nat, ghost a: Inst, ghost b: Inst)
      requires Synced()
      modifies this`words, this`code, this`nextId, this`bound
      ensures Synced() && x == old(nextId) && y == x + 1 && nextId == x + 2
      ensures a == Op(124, ty0, x, [s0]) && b == Op(124, ty1, y, [s1]) && code == old(code) + [a] + [b]
    {
      hide Synced, Op;
      x, a := EmitOp(124, ty0, [s0]);
      y, b := EmitOp(124, ty1, [s1]);
    }

    /** A shift left by a constant two, declared here. */
    method EmitScaled(s: nat) returns (x: nat, ghost a: Inst, ghost b: Inst)
      requires Synced()
      modifies this`words, this`code, this`nextId, this`bound
      ensures Synced() && x == old(nextId) + 1 && nextId == x + 1
      ensures a == Op(43, types.u32_, x - 1, [2]) && b == Op(165, types.u32_, x, [s, x - 1]) && code == old(code) + [a] + [b]
    {
      hide Synced, Op;
      var two: nat;
      two, a := EmitOp(43, types.u32_, [2]);
      x, b := EmitOp(165, types.u32_, [s, two]);
    }

    /** A bit-field insertion of a constant 32 bits, declared here. */
    method EmitInsertion(into: nat, insert: nat, offset: nat) returns (x: nat, ghost a: Inst, ghost b: Inst)
      requires Synced()
      modifies this`words, this`code, this`nextId, this`bound
      ensures Synced() && x == old(nextId) + 1 && nextId == x + 1
      ensures a == Op(43, types.u32_, x - 1, [32]) && b == Op(175, types.u32_, x, [into, insert, offset, x - 1])
      ensures code == old(code) + [a] + [b]
    {
      hide Synced, Op;
      var count: nat;
      count, a := EmitOp(43, types.u32_, [32]);
      x, b := EmitOp(175, types.u32_, [into, insert, offset, count]);
    }

    // ── The cases of the lowering ────────────────────────────────────────

    method EmitFloatBinary(ghost env: Env, vars: map<nat, nat>, i: IrInst, op: Arith)
      requires BodyReady(env, vars)
      modifies this`words, this`code, this`nextId, this`bound
      ensures Lowered(env, vars, i, Float2(op))
    {
      hide Synced, LoadCode, BodyCode, RecipeOut, Mapped, Float2, Op, RefId, Local, Shaped, NoConstants, ValueSteps;
      Float2Code(env, nextId, op);
      var ok, s0, s1, _ := Sources(env, vars, i, 2, 2, Float2(op));
      if ok {
        var value, a := EmitOp(op, types.f32, [s0, s1]);
        RefTemp(env, s0, value - s0);
        StoreResult(env, vars, i, value, Float2(op), old(code), s0);
      }
    }

    method EmitFloatExt2(ghost env: Env, vars: map<nat, nat>, i: IrInst, number: nat)
      requires BodyReady(env, vars)
      modifies this`words, this`code, this`nextId, this`bound
      ensures Lowered(env, vars, i, FloatExt2(number))
    {
      hide Synced, LoadCode, BodyCode, RecipeOut, Mapped, FloatExt2, Op, RefId, Local, Shaped, NoConstants, ValueSteps;
      FloatExt2Code(env, nextId, number);
      var ok, s0, s1, _ := Sources(env, vars, i, 2, 2, FloatExt2(number));
      if ok {
        var value, a := EmitExtInst(types.f32, number, [s0, s1]);
        RefTemp(env, s0, value - s0);
        StoreResult(env, vars, i, value, FloatExt2(number), old(code), s0);
      }
    }

    method EmitFloatExt1(ghost env: Env, vars: map<nat, nat>, i: IrInst, number: nat)
      requires BodyReady(env, vars)
      modifies this`words, this`code, this`nextId, this`bound
      ensures Lowered(env, vars, i, FloatExt1(number))
    {
      hide Synced, LoadCode, BodyCode, RecipeOut, Mapped, FloatExt1, Op, RefId, Local, Shaped, NoConstants, ValueSteps;
      FloatExt1Code(env, nextId, number);
      var ok, s0, _, _ := Sources(env, vars, i, 1, 1, FloatExt1(number));
      if ok {
        var value, a := EmitExtInst(types.f32, number, [s0]);
        RefTemp(env, s0, value - s0);
        StoreResult(env, vars, i, value, FloatExt1(number), old(code), s0);
      }
    }

    method EmitMulAdd(ghost env: Env, vars: map<nat, nat>, i: IrInst)
      requires BodyReady(env, vars)
      modifies this`words, this`code, this`nextId, this`bound
      ensures Lowered(env, vars, i, MulAdd())
    {
      hide Synced, LoadCode, BodyCode, RecipeOut, Mapped, MulAdd, Op, RefId, Local, Shaped, NoConstants, ValueSteps;
      MulAddCode(env, nextId);
      var ok, s0, s1, s2 := Sources(env, vars, i, 3, 3, MulAdd());
      if ok {
        ghost var at := code;
        var product, a := EmitOp(133, types.f32, [s0, s1]);
        var value, b := EmitOp(129, types.f32, [product, s2]);
        assert a == Op(133, env.F32(), s0 + 3, [s0, s0 + 1]) && b == Op(129, env.F32(), s0 + 4, [s0 + 3, s0 + 2]);
        Added2(at, a, b, BodyCode(env, s0, 3, MulAdd().body));
        RefTemp(env, s0, value - s0);
        StoreResult(env, vars, i, value, MulAdd(), old(code), s0);
      }
    }

    method EmitFloatNeg(ghost env: Env, vars: map<nat, nat>, i: IrInst)
      requires BodyReady(env, vars)
      modifies this`words, this`code, this`nextId, this`bound
      ensures Lowered(env, vars, i, FloatNeg())
    {
      hide Synced, LoadCode, BodyCode, RecipeOut, Mapped, FloatNeg, Op, RefId, Local, Shaped, NoConstants, ValueSteps;
      FloatNegCode(env, nextId);
      var ok, s0, _, _ := Sources(env, vars, i, 1, 1, FloatNeg());
      if ok {
        var value, a := EmitOp(127, types.f32, [s0]);
        RefTemp(env, s0, value - s0);
        StoreResult(env, vars, i, value, FloatNeg(), old(code), s0);
      }
    }

    method EmitClamp(ghost env: Env, vars: map<nat, nat>, i: IrInst)
      requires BodyReady(env, vars)
      modifies this`words, this`code, this`nextId, this`bound
      ensures Lowered(env, vars, i, Clamp())
    {
      hide Synced, LoadCode, BodyCode, RecipeOut, Mapped, Clamp, Op, RefId, Local, Shaped, NoConstants, ValueSteps;
      ClampCode(env, nextId);
      var ok, s0, _, _ := Sources(env, vars, i, 1, 1, Clamp());
      if ok {
        var value, a := EmitExtInst(types.f32, 43, [s0, constZero, constOne]);
        RefTemp(env, s0, value - s0);
        StoreResult(env, vars, i, value, Clamp(), old(code), s0);
      }
    }

    method EmitReciprocal(ghost env: Env, vars: map<nat, nat>, i: IrInst)
      requires BodyReady(env, vars)
      modifies this`words, this`code, this`nextId, this`bound
      ensures Lowered(env, vars, i, Reciprocal())
    {
      hide Synced, LoadCode, BodyCode, RecipeOut, Mapped, Reciprocal, Op, RefId, Local, Shaped, NoConstants, ValueSteps;
      ReciprocalCode(env, nextId);
      var ok, s0, _, _ := Sources(env, vars, i, 1, 1, Reciprocal());
      if ok {
        var value, a := EmitOp(136, types.f32, [constOne, s0]);
        RefTemp(env, s0, value - s0);
        StoreResult(env, vars, i, value, Reciprocal(), old(code), s0);
      }
    }

    method EmitIntBinary(ghost env: Env, vars: map<nat, nat>, i: IrInst, op: Arith)
      requires BodyReady(env, vars)
      modifies this`words, this`code, this`nextId, this`bound
      ensures Lowered(env, vars, i, Int2(op))
    {
      hide Synced, LoadCode, BodyCode, RecipeOut, Mapped, Int2, Op, RefId, Local, Shaped, NoConstants, ValueSteps;
      Int2Code(env, nextId, op);
      var ok, s0, s1, _ := Sources(env, vars, i, 2, 2, Int2(op));
      if ok {
        ghost var at := code;
        var s0i, s1i, a, b := EmitBitcasts(types.i32, types.i32, s0, s1);
        var result, c := EmitOp(op, types.i32, [s0i, s1i]);
        var value, d := EmitOp(124, types.f32, [result]);
        Added4(at, a, b, c, d, BodyCode(env, s0, 2, Int2(op).body));
        RefTemp(env, s0, value - s0);
        StoreResult(env, vars, i, value, Int2(op), old(code), s0);
      }
    }

    method EmitIntTernary(ghost env: Env, vars: map<nat, nat>, i: IrInst, op: Arith)
      requires BodyReady(env, vars)
      modifies this`words, this`code, this`nextId, this`bound
      ensures Lowered(env, vars, i, Int3(op))
    {
      hide Synced, LoadCode, BodyCode, RecipeOut, Mapped, Int3, Op, RefId, Local, Shaped, NoConstants, ValueSteps;
      Int3Code(env, nextId, op);
      var ok, s0, s1, s2 := Sources(env, vars, i, 3, 3, Int3(op));
      if ok {
        ghost var at := code;
        var s0i, s1i, a, b := EmitBitcasts(types.i32, types.i32, s0, s1);
        var s2i, c := EmitOp(124, types.i32, [s2]);
        var first, d := EmitOp(op, types.i32, [s0i, s1i]);
        var second, e := EmitOp(128, types.i32, [first, s2i]);
        var value, f := EmitOp(124, types.f32, [second]);
        Added6(at, a, b, c, d, e, f, BodyCode(env, s0, 3, Int3(op).body));
        RefTemp(env, s0, value - s0);
        StoreResult(env, vars, i, value, Int3(op), old(code), s0);
      }
    }

    method EmitIntNeg(ghost env: Env, vars: map<nat, nat>, i: IrInst)
      requires BodyReady(env, vars)
      modifies this`words, this`code, this`nextId, this`bound
      ensures Lowered(env, vars, i, IntNeg())
    {
      hide Synced, LoadCode, BodyCode, RecipeOut, Mapped, IntNeg, Op, RefId, Local, Shaped, NoConstants, ValueSteps;
      IntNegCode(env, nextId);
      var ok, s0, _, _ := Sources(env, vars, i, 1, 1, IntNeg());
      if ok {
        ghost var at := code;
        var s0i, a := EmitOp(124, types.i32, [s0]);
        var negated, b := EmitOp(126, types.i32, [s0i]);
        var value, c := EmitOp(124, types.f32, [negated]);
        Added3(at, a, b, c, BodyCode(env, s0, 1, IntNeg().body));
        RefTemp(env, s0, value - s0);
        StoreResult(env, vars, i, value, IntNeg(), old(code), s0);
      }
    }

    method EmitIntAbs(ghost env: Env, vars: map<nat, nat>, i: IrInst)
      requires BodyReady(env, vars)
      modifies this`words, this`code, this`nextId, this`bound
      ensures Lowered(env, vars, i, IntAbs())
    {
      hide Synced, LoadCode, BodyCode, RecipeOut, Mapped, IntAbs, Op, RefId, Local, Shaped, NoConstants, ValueSteps;
      IntAbsCode(env, nextId);
      var ok, s0, _, _ := Sources(env, vars, i, 1, 1, IntAbs());
      if ok {
        ghost var at := code;
        var s0i, a := EmitOp(124, types.i32, [s0]);
        var absolute, b := EmitExtInst(types.i32, 5, [s0i]);
        var value, c := EmitOp(124, types.f32, [absolute]);
        Added3(at, a, b, c, BodyCode(env, s0, 1, IntAbs().body));
        RefTemp(env, s0, value - s0);
        StoreResult(env, vars, i, value, IntAbs(), old(code), s0);
      }
    }

    method EmitToInt(ghost env: Env, vars: map<nat, nat>, i: IrInst)
      requires BodyReady(env, vars)
      modifies this`words, this`code, this`nextId, this`bound
      ensures Lowered(env, vars, i, ToInt())
    {
      hide Synced, LoadCode, BodyCode, RecipeOut, Mapped, ToInt, Op, RefId, Local, Shaped, NoConstants, ValueSteps;
      ToIntCode(env, nextId);
      var ok, s0, _, _ := Sources(env, vars, i, 1, 1, ToInt());
      if ok {
        ghost var at := code;
        var converted, a := EmitOp(110, types.i32, [s0]);
        var value, b := EmitOp(124, types.f32, [converted]);
        assert a == Op(110, env.I32(), s0 + 1, [s0]) && b == Op(124, env.F32(), s0 + 2, [s0 + 1]);
        Added2(at, a, b, BodyCode(env, s0, 1, ToInt().body));
        RefTemp(env, s0, value - s0);
        StoreResult(env, vars, i, value, ToInt(), old(code), s0);
      }
    }

    method EmitToFloat(ghost env: Env, vars: map<nat, nat>, i: IrInst)
      requires BodyReady(env, vars)
      modifies this`words, this`code, this`nextId, this`bound
      ensures Lowered(env, vars, i, ToFloat())
    {
      hide Synced, LoadCode, BodyCode, RecipeOut, Mapped, ToFloat, Op, RefId, Local, Shaped, NoConstants, ValueSteps;
      ToFloatCode(env, nextId);
      var ok, s0, _, _ := Sources(env, vars, i, 1, 1, ToFloat());
      if ok {
        ghost var at := code;
        var s0i, a := EmitOp(124, types.i32, [s0]);
        var value, b := EmitOp(111, types.f32, [s0i]);
        assert a == Op(124, env.I32(), s0 + 1, [s0]) && b == Op(111, env.F32(), s0 + 2, [s0 + 1]);
        Added2(at, a, b, BodyCode(env, s0, 1, ToFloat().body));
        RefTemp(env, s0, value - s0);
        StoreResult(env, vars, i, value, ToFloat(), old(code), s0);
      }
    }

    method EmitShift(ghost env: Env, vars: map<nat, nat>, i: IrInst, op: Arith)
      requires BodyReady(env, vars)
      modifies this`words, this`code, this`nextId, this`bound
      ensures Lowered(env, vars, i, Shift(op))
    {
      hide Synced, LoadCode, BodyCode, RecipeOut, Mapped, Shift, Op, RefId, Local, Shaped, NoConstants, ValueSteps;
      ShiftCode(env, nextId, op);
      var ok, s0, s1, _ := Sources(env, vars, i, 2, 2, Shift(op));
      if ok {
        ghost var at := code;
        var s0i, s1i, a, b := EmitBitcasts(types.i32, types.u32_, s0, s1);
        var shifted, c := EmitOp(op, types.i32, [s0i, s1i]);
        var value, d := EmitOp(124, types.f32, [shifted]);
        Added4(at, a, b, c, d, BodyCode(env, s0, 2, Shift(op).body));
        RefTemp(env, s0, value - s0);
        StoreResult(env, vars, i, value, Shift(op), old(code), s0);
      }
    }

    method EmitBitExtract(ghost env: Env, vars: map<nat, nat>, i: IrInst)
      requires BodyReady(env, vars)
      modifies this`words, this`code, this`nextId, this`bound
      ensures Lowered(env, vars, i, BitExtract())
    {
      hide Synced, LoadCode, BodyCode, RecipeOut, Mapped, BitExtract, Op, RefId, Local, Shaped, NoConstants, ValueSteps;
      BitExtractCode(env, nextId);
      var ok, s0, s1, s2 := Sources(env, vars, i, 3, 3, BitExtract());
      if ok {
        ghost var at := code;
        var from, offset, a, b := EmitBitcasts(types.u32_, types.u32_, s0, s1);
        var count, c := EmitOp(124, types.u32_, [s2]);
        var extracted, d := EmitOp(177, types.u32_, [from, offset, count]);
        var value, e := EmitOp(124, types.f32, [extracted]);
        Added5(at, a, b, c, d, e, BodyCode(env, s0, 3, BitExtract().body));
        RefTemp(env, s0, value - s0);
        StoreResult(env, vars, i, value, BitExtract(), old(code), s0);
      }
    }

    /** BFI: the count is the constant 32, declared here. */
    method EmitBitInsert(ghost env: Env, vars: map<nat, nat>, i: IrInst)
      requires BodyReady(env, vars)
      modifies this`words, this`code, this`nextId, this`bound
      ensures Lowered(env, vars, i, BitInsert())
    {
      hide Synced, LoadCode, BodyCode, RecipeOut, Mapped, BitInsert, Op, RefId, Local, Shaped, NoConstants, ValueSteps;
      BitInsertCode(env, nextId);
      var ok, s0, s1, s2 := Sources(env, vars, i, 3, 3, BitInsert());
      if ok {
        ghost var at := code;
        var into, insert, a, b := EmitBitcasts(types.u32_, types.u32_, s0, s1);
        var offset, c := EmitOp(124, types.u32_, [s2]);
        var inserted, d, e := EmitInsertion(into, insert, offset);
        var value, f := EmitOp(124, types.f32, [inserted]);
        Added6(at, a, b, c, d, e, f, BodyCode(env, s0, 3, BitInsert().body));
        RefTemp(env, s0, value - s0);
        StoreResult(env, vars, i, value, BitInsert(), old(code), s0);
      }
    }

    /** IMNMX always takes the maximum. */
    method EmitIntMax(ghost env: Env, vars: map<nat, nat>, i: IrInst)
      requires BodyReady(env, vars)
      modifies this`words, this`code, this`nextId, this`bound
      ensures Lowered(env, vars, i, IntMax())
    {
      hide Synced, LoadCode, BodyCode, RecipeOut, Mapped, IntMax, Op, RefId, Local, Shaped, NoConstants, ValueSteps;
      IntMaxCode(env, nextId);
      var ok, s0, s1, _ := Sources(env, vars, i, 2, 2, IntMax());
      if ok {
        ghost var at := code;
        var s0i, s1i, a, b := EmitBitcasts(types.i32, types.i32, s0, s1);
        var compared, c := EmitOp(142, types.bool_, [s0i, s1i]);
        var selected, d := EmitOp(169, types.i32, [compared, s0i, s1i]);
        var value, e := EmitOp(124, types.f32, [selected]);
        Added5(at, a, b, c, d, e, BodyCode(env, s0, 2, IntMax().body));
        RefTemp(env, s0, value - s0);
        StoreResult(env, vars, i, value, IntMax(), old(code), s0);
      }
    }

    /** FSET: one or zero, by equality. */
    method EmitFloatSet(ghost env: Env, vars: map<nat, nat>, i: IrInst)
      requires BodyReady(env, vars)
      modifies this`words, this`code, this`nextId, this`bound
      ensures Lowered(env, vars, i, FloatSet())
    {
      hide Synced, LoadCode, BodyCode, RecipeOut, Mapped, FloatSet, Op, RefId, Local, Shaped, NoConstants, ValueSteps;
      FloatSetCode(env, nextId);
      var ok, s0, s1, _ := Sources(env, vars, i, 2, 2, FloatSet());
      if ok {
        ghost var at := code;
        var compared, a := EmitOp(156, types.bool_, [s0, s1]);
        var value, b := EmitOp(169, types.f32, [compared, constOne, constZero]);
        assert a == Op(156, env.Bool(), s0 + 2, [s0, s0 + 1]) && b == Op(169, env.F32(), s0 + 3, [s0 + 2, env.One(), env.Zero()]);
        Added2(at, a, b, BodyCode(env, s0, 2, FloatSet().body));
        RefTemp(env, s0, value - s0);
        StoreResult(env, vars, i, value, FloatSet(), old(code), s0);
      }
    }

    /** LEA: the second source is shifted left by two and added to the first. */
    method EmitAddress(ghost env: Env, vars: map<nat, nat>, i: IrInst)
      requires BodyReady(env, vars)
      modifies this`words, this`code, this`nextId, this`bound
      ensures Lowered(env, vars, i, Address())
    {
      hide Synced, LoadCode, BodyCode, RecipeOut, Mapped, Address, Op, RefId, Local, Shaped, NoConstants, ValueSteps;
      AddressCode(env, nextId);
      var ok, s0, s1, _ := Sources(env, vars, i, 2, 2, Address());
      if ok {
        ghost var at := code;
        var s0i, s1i, a, b := EmitBitcasts(types.u32_, types.u32_, s0, s1);
        var shifted, c, d := EmitScaled(s1i);
        var sum, e := EmitOp(128, types.u32_, [s0i, shifted]);
        var value, f := EmitOp(124, types.f32, [sum]);
        Added6(at, a, b, c, d, e, f, BodyCode(env, s0, 2, Address().body));
        RefTemp(env, s0, value - s0);
        StoreResult(env, vars, i, value, Address(), old(code), s0);
      }
    }

    /** A load from the constant buffer, indexed by a register. */
    method EmitConstantLoad(ghost env: Env, vars: map<nat, nat>, i: IrInst)
      requires BodyReady(env, vars)
      modifies this`words, this`code, this`nextId, this`bound
      ensures Lowered(env, vars, i, ConstantLoad())
    {
      hide Synced, LoadCode, BodyCode, RecipeOut, Mapped, ConstantLoad, Op, RefId, Local, Shaped, NoConstants, ValueSteps;
      ConstantLoadCode(env, nextId);
      var ok, s0, _, _ := Sources(env, vars, i, 1, 1, ConstantLoad());
      if ok && cbufVar != 0 {
        ghost var at := code;
        var index, a := EmitOp(124, types.u32_, [s0]);
        var ptr, b := EmitOp(65, types.f32UniformPtr, [cbufVar, constZero, index]);
        var value, c := EmitOp(61, types.f32, [ptr]);
        Added3(at, a, b, c, BodyCode(env, s0, 1, ConstantLoad().body));
        RefTemp(env, s0, value - s0);
        StoreResult(env, vars, i, value, ConstantLoad(), old(code), s0);
      }
    }

    /** A texture sample at a coordinate used twice; without a texture variable only the coordinate is loaded. */
    method EmitSample(ghost env: Env, vars: map<nat, nat>, i: IrInst)
      requires BodyReady(env, vars)
      modifies this`words, this`code, this`nextId, this`bound
      ensures Lowered(env, vars, i, Sample(env.ids.tex))
    {
      hide Synced, LoadCode, BodyCode, Mapped, Op, RefId, Local, Shaped, NoConstants, ValueSteps;
      if texVar != 0 {
        SampleCode(env, nextId);
      }
      var ok, s0, _, _ := Sources(env, vars, i, 2, 1, Sample(env.ids.tex));
      if ok && texVar != 0 {
        ghost var at := code;
        var coordinates, a := EmitOp(80, types.vec2f32, [s0, s0]);
        var image, b := EmitOp(61, types.imagePtr, [texVar]);
        var value, c := EmitOp(88, types.vec4f32, [image, coordinates, constZero]);
        Added3(at, a, b, c, BodyCode(env, s0, 1, Sample(env.ids.tex).body));
        RefTemp(env, s0, value - s0);
        StoreResult(env, vars, i, value, Sample(env.ids.tex), old(code), s0);
      }
    }

    /** The first source is stored unchanged. */
    method EmitPass(ghost env: Env, vars: map<nat, nat>, i: IrInst, minSrc: nat)
      requires BodyReady(env, vars)
      modifies this`words, this`code, this`nextId, this`bound
      ensures Lowered(env, vars, i, Pass(minSrc))
    {
      hide Synced, LoadCode, RecipeOut, Mapped;
      var ok, s0, _, _ := Sources(env, vars, i, minSrc, 1, Pass(minSrc));
      if ok {
        NothingLast(code);
        StoreResult(env, vars, i, s0, Pass(minSrc), old(code), s0);
      }
    }

    /** S2R stores the constant zero. */
    method EmitSpecialRegister(ghost env: Env, vars: map<nat, nat>, i: IrInst)
      requires BodyReady(env, vars)
      modifies this`words, this`code, this`nextId, this`bound
      ensures Lowered(env, vars, i, Gpr(0, 0, [], RZero))
    {
      hide Synced, RecipeOut;
      NothingLast(code);
      StoreResult(env, vars, i, constZero, Gpr(0, 0, [], RZero), code, nextId);
    }

    /** Stores a comparison to the variable of its predicate, declaring it on first use. */
    method StorePredicate(ghost env: Env, vars: map<nat, nat>, i: IrInst, value: nat, ghost r: Recipe, ghost start: seq<Inst>, ghost n: nat)
      requires BodyReady(env, vars) && r.loads <= 3 && r.minSrc <= i.srcCount && r.toPredicate && r.val != RTex
      requires Mapped(vars, i, r.loads) == r.loads && value == RefId(env, n, r.val) && nextId == n + r.loads + |r.body|
      requires code == start + LoadCode(env, vars, i, r.loads, n) + BodyCode(env, n, r.loads, r.body)
      modifies this`words, this`code, this`nextId, this`bound, this`preds
      ensures var o := RecipeOut(env, vars, old(preds), i, r, n); Synced() && code == start + o.code && nextId == o.next && preds == o.preds
    {
      hide EncodeAll, LoadCode, BodyCode, RefId;
      var p := i.dest.Reg();
      ghost var at := code;
      ghost var store := StoreOut(env, vars, preds, i, true, value, nextId);
      if p !in preds {
        var ptr := EmitDecl(32, [7, types.bool_]);
        var variable, a := EmitOp(59, ptr, [7]);
        preds := preds[p := variable];
        EmitInst(62, [variable, value]);
        assert a.args == [ptr, variable, 7] && [ptr] + [7, types.bool_] == [ptr, 7, types.bool_];
        Added3(at, Inst(32, [ptr] + [7, types.bool_]), a, Inst(62, [variable, value]), [Inst(32, [ptr] + [7, types.bool_]), a, Inst(62, [variable, value])]);
      } else {
        EmitInst(62, [preds[p], value]);
      }
      Associative3(start, LoadCode(env, vars, i, r.loads, n), BodyCode(env, n, r.loads, r.body), store.code);
    }

    /** ISETP always compares for equality. */
    method EmitIntCompare(ghost env: Env, vars: map<nat, nat>, i: IrInst)
      requires BodyReady(env, vars)
      modifies this`words, this`code, this`nextId, this`bound, this`preds
      ensures Lowered(env, vars, i, IntCompare())
    {
      hide Synced, LoadCode, BodyCode, RecipeOut, Mapped, IntCompare, Op, RefId, Local, Shaped, NoConstants, ValueSteps;
      IntCompareCode(env, nextId);
      var ok, s0, s1, _ := Sources(env, vars, i, 2, 2, IntCompare());
      if ok {
        ghost var at := code;
        var s0i, s1i, a, b := EmitBitcasts(types.i32, types.i32, s0, s1);
        var value, c := EmitOp(143, types.bool_, [s0i, s1i]);
        Added3(at, a, b, c, BodyCode(env, s0, 2, IntCompare().body));
        RefTemp(env, s0, value - s0);
        StorePredicate(env, vars, i, value, IntCompare(), old(code), s0);
      }
    }

    method EmitFloatCompare(ghost env: Env, vars: map<nat, nat>, i: IrInst)
      requires BodyReady(env, vars)
      modifies this`words, this`code, this`nextId, this`bound, this`preds
      ensures Lowered(env, vars, i, FloatCompare())
    {
      hide Synced, LoadCode, BodyCode, RecipeOut, Mapped, FloatCompare, Op, RefId, Local, Shaped, NoConstants, ValueSteps;
      FloatCompareCode(env, nextId);
      var ok, s0, s1, _ := Sources(env, vars, i, 2, 2, FloatCompare());
      if ok {
        var value, a := EmitOp(156, types.bool_, [s0, s1]);
        RefTemp(env, s0, value - s0);
        StorePredicate(env, vars, i, value, FloatCompare(), old(code), s0);
      }
    }

    /** Opcodes without a case of their own. */
    method EmitFallback(ghost env: Env, vars: map<nat, nat>, i: IrInst)
      requires BodyReady(env, vars)
      modifies this`words, this`code, this`nextId, this`bound
      ensures LoweredAs(env, vars, i, Fallback(i.dest.kind.KGpr?))
    {
      hide RecipeOut, Local, Shaped, NoConstants, ValueSteps, Pass;
      if i.dest.kind.KGpr? {
        EmitPass(env, vars, i, 1);
      }
    }

    method EmitMufu(ghost env: Env, vars: map<nat, nat>, i: IrInst)
      requires BodyReady(env, vars)
      modifies this`words, this`code, this`nextId, this`bound
      ensures Lowered(env, vars, i, MufuRecipe(i.src0.mufu))
    {
      hide RecipeOut, Local, Shaped, NoConstants, ValueSteps, Pass, FloatExt1, Reciprocal;
      var op := i.src0.mufu;
      if op == MUFU_SIN {
        EmitFloatExt1(env, vars, i, 13);
      } else if op == MUFU_COS {
        EmitFloatExt1(env, vars, i, 14);
      } else if op == MUFU_EX2 {
        EmitFloatExt1(env, vars, i, 22);
      } else if op == MUFU_LG2 {
        EmitFloatExt1(env, vars, i, 24);
      } else if op == MUFU_RCP {
        EmitReciprocal(env, vars, i);
      } else if op == MUFU_RSQ {
        EmitFloatExt1(env, vars, i, 32);
      } else if op == MUFU_SQRT {
        EmitFloatExt1(env, vars, i, 31);
      } else if op == MUFU_FLOOR {
        EmitFloatExt1(env, vars, i, 8);
      } else if op == MUFU_CEIL {
        EmitFloatExt1(env, vars, i, 9);
      } else if op == MUFU_TAN {
        EmitFloatExt1(env, vars, i, 15);
      } else {
        EmitPass(env, vars, i, 1);
      }
    }

    method EmitFloat(ghost env: Env, vars: map<nat, nat>, i: IrInst, op: FloatOp)
      requires BodyReady(env, vars)
      modifies this`words, this`code, this`nextId, this`bound
      ensures LoweredAs(env, vars, i, FloatRecipe(op, i.src0.mufu, i.dest.kind.KGpr?))
    {
      hide RecipeOut, Local, Shaped, NoConstants, ValueSteps, Float2, FloatExt1, FloatExt2, MulAdd, FloatNeg, Clamp, Reciprocal, MufuRecipe, Fallback;
      match op
      case FMAD => EmitMulAdd(env, vars, i);
      case FADD => EmitFloatBinary(env, vars, i, 129);
      case FMUL => EmitFloatBinary(env, vars, i, 133);
      case FMAX => EmitFloatExt2(env, vars, i, 40);
      case FMIN => EmitFloatExt2(env, vars, i, 37);
      case FSAT => EmitClamp(env, vars, i);
      case FNEG => EmitFloatNeg(env, vars, i);
      case FABS => EmitFloatExt1(env, vars, i, 4);
      case FRCP => EmitReciprocal(env, vars, i);
      case FRSQ => EmitFloatExt1(env, vars, i, 32);
      case FSQRT => EmitFloatExt1(env, vars, i, 31);
      case FEX2 => EmitFloatExt1(env, vars, i, 22);
      case FLG2 => EmitFloatExt1(env, vars, i, 24);
      case MUFU => EmitMufu(env, vars, i);
      case FSIN | FCOS => EmitFallback(env, vars, i);
    }

    method EmitInt(ghost env: Env, vars: map<nat, nat>, i: IrInst, op: IntOp)
      requires BodyReady(env, vars)
      modifies this`words, this`code, this`nextId, this`bound, this`preds
      ensures Lowered(env, vars, i, IntRecipe(op))
    {
      hide Lowered, BodyReady, Int2, Int3, IntNeg, IntAbs, ToFloat, Pass, Shift, IntMax, Address, IntCompare;
      match op
      case IADD => EmitIntBinary(env, vars, i, 128);
      case ISUB => EmitIntBinary(env, vars, i, 130);
      case IMUL => EmitIntBinary(env, vars, i, 132);
      case IMAD => EmitIntTernary(env, vars, i, 132);
      case IADD3 => EmitIntTernary(env, vars, i, 128);
      case INEG => EmitIntNeg(env, vars, i);
      case IABS => EmitIntAbs(env, vars, i);
      case I2F => EmitToFloat(env, vars, i);
      case I2I | POPC | FLO => EmitPass(env, vars, i, 1);
      case SHL => EmitShift(env, vars, i, 165);
      case SHR => EmitShift(env, vars, i, 167);
      case IMNMX => EmitIntMax(env, vars, i);
      case LEA => EmitAddress(env, vars, i);
      case ISETP => EmitIntCompare(env, vars, i);
    }

    method EmitSpecial(ghost env: Env, vars: map<nat, nat>, i: IrInst, op: SpecialOp)
      requires BodyReady(env, vars)
      modifies this`words, this`code, this`nextId, this`bound
      ensures LoweredAs(env, vars, i, SpecialRecipe(op, i.dest.kind.KGpr?))
    {
      hide RecipeOut, Local, Shaped, NoConstants, ValueSteps, Pass, BitExtract, BitInsert, Fallback;
      match op
      case S2R => EmitSpecialRegister(env, vars, i);
      case PRMT => EmitPass(env, vars, i, 2);
      case BFE => EmitBitExtract(env, vars, i);
      case BFI => EmitBitInsert(env, vars, i);
      case _ => EmitFallback(env, vars, i);
    }

    /** Conversions, comparisons into registers, memory and textures. */
    method EmitOther(ghost env: Env, vars: map<nat, nat>, i: IrInst)
      requires BodyReady(env, vars) && !i.opcode.Ctl? && !i.opcode.Flt? && !i.opcode.Int? && !i.opcode.Spc?
      modifies this`words, this`code, this`nextId, this`bound, this`preds
      ensures LoweredAs(env, vars, i, RecipeOf(i, env.ids.tex))
    {
      hide Lowered, BodyReady, Pass, ToInt, FloatCompare, FloatSet, ConstantLoad, Sample, Fallback;
      var op := i.opcode;
      if op == Cvt(F2I) {
        EmitToInt(env, vars, i);
      } else if op == Cvt(F2F) {
        EmitPass(env, vars, i, 1);
      } else if op == Cmp(FSETP) {
        EmitFloatCompare(env, vars, i);
      } else if op == Cmp(FSET) {
        EmitFloatSet(env, vars, i);
      } else if op == Load(LD) || op == Store(ST) {
        EmitPass(env, vars, i, 0);
      } else if op == Load(LDC) {
        EmitConstantLoad(env, vars, i);
      } else if op == Tex(TEX) {
        EmitSample(env, vars, i);
      } else {
        EmitFallback(env, vars, i);
      }
    }

    /** The lowering of one instruction: what it emits, the ids it takes and the predicates it declares. */
    method EmitShaderInst(ghost env: Env, vars: map<nat, nat>, i: IrInst)
      requires BodyReady(env, vars)
      modifies this`words, this`code, this`nextId, this`bound, this`preds
      ensures var o := InstOut(env, vars, old(preds), i, old(nextId));
              Synced() && code == old(code) + o.code && nextId == o.next && preds == o.preds
    {
      hide RecipeOut, Local, Shaped, NoConstants, ValueSteps, FloatRecipe, IntRecipe, SpecialRecipe, Pass, Fallback;
      NothingLast(code);
      match i.opcode
      case Ctl(c) =>
        if c.KIL? {
          EmitInst(252, []);
        } else if c.CONT? || c.BREAK? {
          EmitFallback(env, vars, i);
        }
      case Flt(f) => EmitFloat(env, vars, i, f);
      case Int(n) => EmitInt(env, vars, i, n);
      case Spc(s) => EmitSpecial(env, vars, i, s);
      case _ => EmitOther(env, vars, i);
    }

    // ── Register variables ───────────────────────────────────────────────

    /** The variables declared so far are those of the specification. */
    ghost predicate Tracks(start: seq<Inst>, g: Gprs, vars: map<nat, nat>)
      reads this
    {
      Synced() && vars == g.vars && nextId == g.next && code == start + g.code && forall r :: r in vars ==> vars[r] != 0
    }

    method AddVariable(vars: map<nat, nat>, o: Operand, ghost start: seq<Inst>, ghost g: Gprs) returns (grown: map<nat, nat>)
      requires Tracks(start, g, vars)
      modifies this`words, this`code, this`nextId, this`bound
      ensures Tracks(start, AddGpr(types.f32FnPtr, g, o), grown) && nextId >= old(nextId)
    {
      hide EncodeAll;
      grown := vars;
      if o.kind.KGpr? && o.Reg() !in vars {
        var id, a := EmitOp(59, types.f32FnPtr, [7]);
        assert a == Inst(59, [types.f32FnPtr, id, 7]);
        Associative3(start, g.code, [a], []);
        NothingLast(g.code + [a]);
        NothingLast(start + g.code + [a]);
        grown := vars[o.Reg() := id];
      }
    }

    method BuildGprMap(insts: seq<IrInst>) returns (vars: map<nat, nat>)
      requires Synced()
      modifies this`words, this`code, this`nextId, this`bound
      ensures Tracks(old(code), BuildGprs(types.f32FnPtr, insts, old(nextId)), vars) && nextId >= old(nextId)
    {
      hide EncodeAll, AddGpr;
      ghost var ptr, start, n := types.f32FnPtr, code, nextId;
      vars := map[];
      NothingLast(start);
      for k := 0 to |insts|
        modifies this`words, this`code, this`nextId, this`bound
        invariant Tracks(start, BuildGprs(ptr, insts[..k], n), vars) && nextId >= n
      {
        ghost var before := BuildGprs(ptr, insts[..k], n);
        assert insts[..k + 1][..k] == insts[..k];
        vars := AddVariable(vars, insts[k].dest, start, before);
        for j: int := 0 to insts[k].srcCount
          modifies this`words, this`code, this`nextId, this`bound
          invariant nextId >= n
          invariant Tracks(start, AddSources(ptr, AddGpr(ptr, before, insts[k].dest), insts[k], j), vars)
        {
          vars := AddVariable(vars, insts[k].Src(j), start, AddSources(ptr, AddGpr(ptr, before, insts[k].dest), insts[k], j));
        }
      }
      assert insts[..|insts|] == insts;
    }

    // ── Control flow ─────────────────────────────────────────────────────

    /** The state of the control-flow pass. */
    ghost function View(): S
      reads this`code, this`nextId, this`labels, this`stack, this`preds, this`emitted
    {
      S(code, nextId, labels, stack, preds, emitted)
    }

    /** A label for a pc, without emitting it. */
    method ReserveLabel(pc: u32) returns (id: nat)
      requires Synced()
      modifies this`nextId, this`bound, this`labels
      ensures Synced() && View() == Reserve(old(View()), pc) && id == View().labels[pc]
    {
      if pc in labels {
        id := labels[pc];
      } else {
        id := AllocId();
        labels := labels[pc := id];
      }
    }

    /** A label, if the pc starts a block that has none yet: always a new id. */
    method BeginBlock(cfg: Cfg, pc: u32)
      requires Synced()
      modifies this`words, this`code, this`nextId, this`bound, this`labels, this`emitted
      ensures Synced() && View() == StartBlock(cfg, old(View()), pc)
    {
      hide EncodeAll;
      if pc in cfg.starts && pc !in emitted {
        var id := EmitDecl(248, []);
        NothingLast([id]);
        labels := labels[pc := id];
        emitted := emitted + {pc};
      }
    }

    method FindPair(pairs: seq<Pair>, pc: u32) returns (r: Option<Pair>)
      ensures r == PairAt(pairs, pc)
    {
      for k := 0 to |pairs|
        invariant PairAt(pairs, pc) == PairAt(pairs[k..], pc)
      {
        if pairs[k].ssyPc == pc {
          return Some(pairs[k]);
        }
        assert pairs[k..][1..] == pairs[k + 1..];
      }
      r := None;
    }

    method HandleSync(pc: u32)
      requires Synced()
      modifies this`stack
      ensures Synced() && View() == PopSync(old(View()), pc)
    {
      if stack != [] && stack[|stack| - 1].syncPc == pc {
        stack := stack[..|stack| - 1];
      }
    }

    method HandleSsy(cfg: Cfg, pc: u32)
      requires Synced()
      modifies this`nextId, this`bound, this`labels, this`stack
      ensures Synced() && View() == PushSsy(cfg, old(View()), pc)
    {
      var found := FindPair(cfg.pairs, pc);
      match found
      case None =>
      case Some(q) =>
        var cont := 0;
        var merge := ReserveLabel(q.syncPc);
        if q.kind.Loop? && q.braTarget != 0 {
          cont := ReserveLabel(q.braTarget);
        } else if q.kind.Loop? {
          cont := ReserveLabel(EmitterSpec.After(pc));
        }
        stack := stack + [SsyEntry(pc, q.syncPc, q.kind, merge, cont)];
    }

    /** The merge instruction of the innermost SSY, unless it is emitted already. */
    method EmitMerge()
      requires Synced()
      modifies this`words, this`code, this`stack
      ensures Synced() && View() == Merge(old(View()))
    {
      hide EncodeAll;
      if stack != [] {
        var last := |stack| - 1;
        var top := stack[last];
        NothingLast(code);
        if top.merge != 0 && top.kind.Selection? {
          EmitInst(247, [top.merge, 0]);
        } else if top.merge != 0 && top.kind.Loop? {
          EmitInst(246, [top.merge, top.cont, 0]);
        }
        stack := stack[last := top.(merge := 0)];
      }
    }

    method EmitBranch(pc: u32)
      requires Synced()
      modifies this`words, this`code, this`nextId, this`bound, this`labels
      ensures Synced() && View() == BranchTo(old(View()), pc)
    {
      hide EncodeAll;
      var target := ReserveLabel(pc);
      EmitInst(249, [target]);
    }

    /** The value of a guard: its predicate's variable, or true while it has none. */
    method EmitCondition(ghost env: Env, i: IrInst) returns (id: nat)
      requires Synced() && Ready(env)
      modifies this`words, this`code, this`nextId, this`bound
      ensures Synced() && (View(), id) == ConditionCode(env, old(View()), i)
    {
      hide Synced;
      if i.guardIndex in preds {
        ghost var a: Inst;
        id, a := EmitOp(61, types.bool_, [preds[i.guardIndex]]);
        assert a == Inst(61, [types.bool_, id, preds[i.guardIndex]]);
      } else {
        id := constTrue;
      }
    }

    method EmitGuardedBranch(ghost env: Env, i: IrInst, falsePc: u32)
      requires Synced() && Ready(env)
      modifies this`words, this`code, this`nextId, this`bound, this`labels, this`stack, this`emitted
      ensures Synced() && View() == GuardedBranch(env, old(View()), i, falsePc)
    {
      hide EncodeAll, Merge, Reserve, ConditionCode;
      EmitMerge();
      var trueLabel := ReserveLabel(LabelPc(i.src0));
      var falseLabel := ReserveLabel(falsePc);
      var condition := EmitCondition(env, i);
      if i.guardNegate {
        EmitInst(250, [condition, falseLabel, trueLabel]);
      } else {
        EmitInst(250, [condition, trueLabel, falseLabel]);
      }
      EmitInst(248, [falseLabel]);
      emitted := emitted + {falsePc};
    }

    method HandleContinue(cfg: Cfg)
      requires Synced()
      modifies this`words, this`code, this`nextId, this`bound, this`labels
      ensures Synced() && View() == Continue(cfg, old(View()))
    {
      hide Synced, BranchTo;
      if stack != [] && stack[|stack| - 1].kind.Loop? {
        var found := FindPair(cfg.pairs, stack[|stack| - 1].ssyPc);
        if found.Some? {
          EmitBranch(found.value.braTarget);
        }
      }
    }

    /** One step of the pass over the program. */
    method EmitNode(ghost env: Env, vars: map<nat, nat>, insts: seq<IrInst>, cfg: Cfg, n: nat)
      requires n < |insts| && BodyReady(env, vars)
      modifies this`words, this`code, this`nextId, this`bound, this`labels, this`stack, this`preds, this`emitted
      ensures BodyReady(env, vars) && View() == Dispatch(env, vars, insts, cfg, n, StartBlock(cfg, old(View()), insts[n].pc))
    {
      hide Synced, StartBlock, PopSync, PushSsy, BranchTo, Merge, GuardedBranch, Continue, InstOut;
      var i := insts[n];
      BeginBlock(cfg, i.pc);
      if i.opcode == Ctl(SYNC) {
        HandleSync(i.pc);
      } else if i.opcode == Ctl(SSY) {
        HandleSsy(cfg, i.pc);
      } else if i.opcode == Ctl(BRA) && !i.guard && i.dest.kind.KNone? {
        EmitMerge();
        EmitBranch(LabelPc(i.src0));
      } else if i.opcode == Ctl(BRA) && i.guard {
        EmitGuardedBranch(env, i, FalsePc(insts, n));
      } else if i.opcode == Ctl(EXIT) || i.opcode == Ctl(RET) {
      } else if i.opcode == Ctl(BREAK) {
        if stack != [] {
          EmitBranch(stack[|stack| - 1].syncPc);
        }
      } else if i.opcode == Ctl(CONT) {
        HandleContinue(cfg);
      } else {
        EmitShaderInst(env, vars, i);
      }
    }

    method EmitStructuredCfg(ghost env: Env, vars: map<nat, nat>, insts: seq<IrInst>, cfg: Cfg)
      requires BodyReady(env, vars)
      modifies this`words, this`code, this`nextId, this`bound, this`labels, this`stack, this`preds, this`emitted
      ensures Synced() && View() == Flow(env, vars, insts, cfg, |insts|, old(View()))
    {
      hide Synced, Dispatch, StartBlock;
      for n := 0 to |insts|
        modifies this`words, this`code, this`nextId, this`bound, this`labels, this`stack, this`preds, this`emitted
        invariant BodyReady(env, vars) && View() == Flow(env, vars, insts, cfg, n, old(View()))
      {
        EmitNode(env, vars, insts, cfg, n);
      }
    }

    // ── The module ───────────────────────────────────────────────────────

    /** Forgets the previous module, except its bound and its texture variable. */
    method Begin()
      modifies this
      ensures Synced() && code == [] && nextId == 1 && floor == old(bound) && texVar == old(texVar)
      ensures labels == map[] && stack == [] && preds == map[] && emitted == {}
    {
      words, nextId, io := [], 1, [];
      labels, stack, preds, emitted := map[], [], map[], {};
      code, floor := [], bound;
      EmitHeader();
    }

    /** Magic number, version, generator, a bound patched at the end, and the schema. */
    method EmitHeader()
      requires words == [] && code == [] && nextId == 1 && bound == floor
      modifies this`words
      ensures Synced()
    {
      EmitWord(0x0723_0203);
      EmitWord(0x0001_0000);
      EmitWord(0);
      EmitWord(0);
      EmitWord(0);
    }

    /** An instruction with a string among its operands. */
    method EmitNamed(op: nat, before: seq<nat>, name: string, after: seq<nat>)
      requires Synced() && forall k :: 0 <= k < |name| ==> name[k] as int < 0x100
      modifies this`words, this`code
      ensures Synced() && code == old(code) + [Inst(op, before + StringWords(name) + after)]
    {
      hide EncodeAll, StringWords;
      ghost var i := Inst(op, before + StringWords(name) + after);
      ghost var start := words;
      EmitWord((1 + |before| + (|name| / 4 + 1) + |after|) * WORD + op);
      EmitWords(before);
      EmitString(name);
      EmitWords(after);
      NamedWords(start, op, before, name, after);
      EncodeSnoc(code, i);
      Associative3(HEADER, EncodeAll(code), Encode(i), []);
      NothingLast(EncodeAll(code) + Encode(i));
      NothingLast(HEADER + EncodeAll(code) + Encode(i));
      code := code + [i];
    }

    /** The ids of the shader's inputs and outputs. */
    method EmitShaderIo(p: Program)
      requires Synced() && nextId == 3
      modifies this`nextId, this`bound, this`io
      ensures Synced() && io == IoIds(p) && nextId == 3 + |io|
    {
      hide EncodeAll;
      io := [];
      if p.IsVertex() {
        var inPosition := AllocId();
        var inColor := AllocId();
        var outPosition := AllocId();
        var outColor := AllocId();
        io := [inPosition, inColor, outPosition, outColor];
      } else if p.IsFragment() {
        var inColor := AllocId();
        var outColor := AllocId();
        io := [inColor, outColor];
      }
    }

    method EmitCapabilities(p: Program)
      requires Synced()
      modifies this`words, this`code
      ensures Synced() && code == old(code) + [Inst(17, [1])] + (if p.usesTextures then [Inst(17, [33])] else [])
    {
      hide Synced;
      EmitInst(17, [1]);
      NothingLast(code);
      if p.usesTextures {
        EmitInst(17, [33]);
      }
    }

    /** Capabilities, import, memory model, entry point and execution mode. */
    method EmitModuleHead(p: Program, ghost ids: Ids) returns (func: nat)
      requires Synced() && code == [] && nextId == 1 && ids.io == IoIds(p)
      modifies this`words, this`code, this`nextId, this`bound, this`io, this`glslExt
      ensures Synced() && code == ModuleHead(p, ids) && nextId == 3 + |io| && io == IoIds(p) && glslExt == 1 && func == 2
    {
      hide Synced, StringWords;
      EmitCapabilities(p);
      glslExt := AllocId();
      EmitNamed(11, [glslExt], "GLSL.std.450", []);
      NothingLast([glslExt] + StringWords("GLSL.std.450"));
      EmitInst(14, [0, 1]);
      func := AllocId();
      EmitShaderIo(p);
      EmitNamed(15, [if p.IsFragment() then 4 else 0, func], "main", io);
      NothingLast(code);
      if p.IsFragment() {
        EmitInst(16, [func, 7]);
      }
      NothingFirst([Inst(17, [1])]);
    }

    method EmitDecoration(target: nat, decoration: nat, value: nat)
      requires Synced()
      modifies this`words, this`code
      ensures Synced() && code == old(code) + [Decorate(target, decoration, value)]
    {
      hide Synced;
      EmitInst(71, [target, decoration, value]);
    }

    method EmitIoDecorations(p: Program)
      requires Synced() && io == IoIds(p)
      modifies this`words, this`code
      ensures Synced() && code == old(code) + IoDecorations(p, io)
    {
      hide Synced, Decorate;
      ghost var at := code;
      NothingLast(at);
      if p.IsVertex() {
        EmitDecoration(io[0], 30, 0);
        EmitDecoration(io[1], 30, 1);
        EmitDecoration(io[2], 11, 0);
        EmitDecoration(io[3], 30, 0);
        Added4(at, Decorate(io[0], 30, 0), Decorate(io[1], 30, 1), Decorate(io[2], 11, 0), Decorate(io[3], 30, 0), [Decorate(io[0], 30, 0), Decorate(io[1], 30, 1), Decorate(io[2], 11, 0), Decorate(io[3], 30, 0)]);
      } else if p.IsFragment() {
        EmitDecoration(io[0], 30, 0);
        EmitDecoration(io[1], 30, 0);
        Added2(at, Decorate(io[0], 30, 0), Decorate(io[1], 30, 0), [Decorate(io[0], 30, 0), Decorate(io[1], 30, 0)]);
      }
    }

    method EmitCbufDecorations()
      requires Synced()
      modifies this`words, this`code
      ensures Synced()
      ensures code == old(code) + [Decorate(types.cbufArray, 6, 4), Decorate(cbufVar, 34, 0), Decorate(cbufVar, 33, 0)]
    {
      hide Synced, Decorate;
      EmitDecoration(types.cbufArray, 6, 4);
      EmitDecoration(cbufVar, 34, 0);
      EmitDecoration(cbufVar, 33, 0);
      Added3(old(code), Decorate(types.cbufArray, 6, 4), Decorate(cbufVar, 34, 0), Decorate(cbufVar, 33, 0), [Decorate(types.cbufArray, 6, 4), Decorate(cbufVar, 34, 0), Decorate(cbufVar, 33, 0)]);
    }

    method EmitTextureDecorations()
      requires Synced()
      modifies this`words, this`code
      ensures Synced() && code == old(code) + [Decorate(texVar, 34, 0), Decorate(texVar, 33, 0)]
    {
      hide Synced, Decorate;
      EmitDecoration(texVar, 34, 0);
      EmitDecoration(texVar, 33, 0);
      Added2(old(code), Decorate(texVar, 34, 0), Decorate(texVar, 33, 0), [Decorate(texVar, 34, 0), Decorate(texVar, 33, 0)]);
    }

    /** The annotations, with the ids they need handed out first. */
    method EmitDecorations(p: Program, ghost ids: Ids)
      requires Synced() && io == IoIds(p) && nextId == 3 + |io| && ids == IdsOf(p, texVar)
      modifies this`words, this`code, this`nextId, this`bound, this`types, this`cbufVar, this`texVar
      ensures Synced() && code == old(code) + Decorations(p, ids) && nextId == ids.base && texVar == ids.tex
      ensures types.cbufArray == ids.CbufArray() && types.cbufStruct == ids.CbufStruct() && cbufVar == ids.CbufVar()
    {
      hide Synced, Decorate;
      ghost var at := code;
      EmitIoDecorations(p);
      var array_ := AllocId();
      var struct_ := AllocId();
      cbufVar := AllocId();
      types := types.(cbufArray := array_, cbufStruct := struct_);
      EmitCbufDecorations();
      NothingLast(code);
      if p.usesTextures {
        texVar := AllocId();
        EmitTextureDecorations();
      }
      Associative3(at, IoDecorations(p, io), [Decorate(array_, 6, 4), Decorate(cbufVar, 34, 0), Decorate(cbufVar, 33, 0)],
            if p.usesTextures then [Decorate(texVar, 34, 0), Decorate(texVar, 33, 0)] else []);
    }

    method EmitScalarTypes() returns (v: nat, b: nat, f: nat, i: nat, u: nat)
      requires Synced()
      modifies this`words, this`code, this`nextId, this`bound
      ensures Synced() && code == old(code) + ScalarTypes(old(nextId)) && nextId == u + 1
      ensures v == old(nextId) && b == v + 1 && f == v + 2 && i == v + 3 && u == v + 4
    {
      hide Synced;
      ghost var at := code;
      v := EmitDecl(19, []);
      b := EmitDecl(20, []);
      f := EmitDecl(22, [32]);
      i := EmitDecl(21, [32, 1]);
      u := EmitDecl(21, [32, 0]);
      NothingLast([v]);
      NothingLast([b]);
      assert [f] + [32] == [f, 32] && [i] + [32, 1] == [i, 32, 1] && [u] + [32, 0] == [u, 32, 0];
      Added5(at, Inst(19, [v]), Inst(20, [b]), Inst(22, [f, 32]), Inst(21, [i, 32, 1]), Inst(21, [u, 32, 0]), ScalarTypes(v));
    }

    /** Vectors of two, three and four components. */
    method EmitVectorTypes(component: nat) returns (two: nat, three: nat, four: nat)
      requires Synced()
      modifies this`words, this`code, this`nextId, this`bound
      ensures Synced() && two == old(nextId) && three == two + 1 && four == two + 2 && nextId == two + 3
      ensures code == old(code) + Vectors(two, component)
    {
      hide Synced;
      ghost var at := code;
      two := EmitDecl(23, [component, 2]);
      three := EmitDecl(23, [component, 3]);
      four := EmitDecl(23, [component, 4]);
      assert [two] + [component, 2] == [two, component, 2] && [three] + [component, 3] == [three, component, 3];
      assert [four] + [component, 4] == [four, component, 4];
      Added3(at, Inst(23, [two, component, 2]), Inst(23, [three, component, 3]), Inst(23, [four, component, 4]), Vectors(two, component));
    }

    method EmitPointer(storage: nat, pointee: nat) returns (id: nat)
      requires Synced()
      modifies this`words, this`code, this`nextId, this`bound
      ensures Synced() && id == old(nextId) && nextId == id + 1 && code == old(code) + [Inst(32, [id, storage, pointee])]
    {
      hide Synced;
      id := EmitDecl(32, [storage, pointee]);
      assert [id] + [storage, pointee] == [id, storage, pointee];
    }

    /** The pointers to registers, inputs, outputs and uniforms. */
    method EmitPointerTypes(f: nat, vec4: nat, ghost b: nat) returns (fn: nat, input: nat, output: nat, uniform: nat)
      requires Synced() && f == b + 2 && vec4 == b + 7 && nextId == b + 14
      modifies this`words, this`code, this`nextId, this`bound
      ensures Synced() && code == old(code) + PointerTypes(b)[..4] && nextId == fn + 4
      ensures fn == old(nextId) && input == fn + 1 && output == fn + 2 && uniform == fn + 3
    {
      hide Synced;
      ghost var at := code;
      fn := EmitPointer(7, f);
      input := EmitPointer(1, vec4);
      output := EmitPointer(3, vec4);
      uniform := EmitPointer(2, f);
      Added4(at, Inst(32, [fn, 7, f]), Inst(32, [input, 1, vec4]), Inst(32, [output, 3, vec4]), Inst(32, [uniform, 2, f]),
               PointerTypes(b)[..4]);
    }

    /** The image type, the pointer to it and the sampled image. */
    method EmitImageTypes(f: nat, ghost b: nat) returns (ptr: nat)
      requires Synced() && f == b + 2 && nextId == b + 18
      modifies this`words, this`code, this`nextId, this`bound
      ensures Synced() && code == old(code) + PointerTypes(b)[4..] && ptr == b + 19 && nextId == b + 21
    {
      hide Synced;
      ghost var at := code;
      var image := EmitDecl(25, [f, 1, 0, 0, 0, 1, 0]);
      ptr := EmitPointer(0, image);
      var sampled := EmitDecl(27, [image]);
      assert [image] + [f, 1, 0, 0, 0, 1, 0] == [image, f, 1, 0, 0, 0, 1, 0] && [sampled] + [image] == [sampled, image];
      Added3(at, Inst(25, [image, f, 1, 0, 0, 0, 1, 0]), Inst(32, [ptr, 0, image]), Inst(27, [sampled, image]), PointerTypes(b)[4..]);
    }

    /** The constant buffer's types under the ids handed out before, and the last pointers. */
    method EmitCbufTypes(f: nat, bool_: nat, ghost b: nat) returns (ptr: nat)
      requires Synced() && nextId == b + 21 && bool_ == b + 1 && f == b + 2 && types.cbufStruct == types.cbufArray + 1
      modifies this`words, this`code, this`nextId, this`bound
      ensures Synced() && ptr == b + 21 && nextId == b + 23
      ensures code == old(code) + CbufTypes(b, types.cbufArray) + LastTypes(b, types.cbufStruct)
    {
      hide Synced;
      ghost var at := code;
      var array_, struct_ := types.cbufArray, types.cbufStruct;
      EmitInst(29, [array_, f]);
      EmitInst(30, [struct_, array_]);
      Added2(at, Inst(29, [array_, f]), Inst(30, [struct_, array_]), CbufTypes(b, array_));
      at := code;
      ptr := EmitPointer(2, struct_);
      var boolPtr := EmitPointer(7, bool_);
      Added2(at, Inst(32, [ptr, 2, struct_]), Inst(32, [boolPtr, 7, bool_]), LastTypes(b, struct_));
    }

    method BuildBaseTypes(ghost ids: Ids)
      requires Synced() && nextId == ids.base && types.cbufArray == ids.CbufArray() && types.cbufStruct == ids.CbufStruct()
      modifies this`words, this`code, this`nextId, this`bound, this`types
      ensures Synced() && code == old(code) + BaseTypes(ids) && nextId == ids.base + 23 && types == TypesOf(ids)
    {
      hide Synced, ScalarTypes, Vectors, PointerTypes, CbufTypes, LastTypes;
      ghost var at := code;
      var v, b, f, i, u := EmitScalarTypes();
      var vec2f, vec3f, vec4f := EmitVectorTypes(f);
      var vec2i, vec3i, vec4i := EmitVectorTypes(i);
      var vec2u, vec3u, vec4u := EmitVectorTypes(u);
      var fn, input, output, uniform := EmitPointerTypes(f, vec4f, ids.base);
      var image := EmitImageTypes(f, ids.base);
      var cbuf := EmitCbufTypes(f, b, ids.base);
      TypeSections(at, ids, Vectors(vec2f, f), Vectors(vec2i, i), Vectors(vec2u, u));
      types := TypeIds(v, b, f, i, u, vec2f, vec4f, fn, input, output, uniform, image, types.cbufArray, types.cbufStruct, cbuf);
    }

    method EmitConstantF32(bits: nat) returns (id: nat)
      requires Synced()
      modifies this`words, this`code, this`nextId, this`bound
      ensures Synced() && id == old(nextId) && nextId == id + 1 && code == old(code) + [Inst(43, [types.f32, id, bits])]
    {
      hide Synced;
      ghost var a;
      id, a := EmitOp(43, types.f32, [bits]);
      assert a.args == [types.f32, id, bits];
    }

    method EmitConstantBool(value: bool) returns (id: nat)
      requires Synced()
      modifies this`words, this`code, this`nextId, this`bound
      ensures Synced() && id == old(nextId) && nextId == id + 1
      ensures code == old(code) + [Inst(if value then 41 else 42, [types.bool_, id])]
    {
      hide Synced;
      ghost var a;
      id, a := EmitOp(if value then 41 else 42, types.bool_, []);
      NothingLast([types.bool_, id]);
    }

    method EmitConstants(ghost b: nat)
      requires Synced() && nextId == b + 23 && types.f32 == b + 2 && types.bool_ == b + 1
      modifies this`words, this`code, this`nextId, this`bound, this`constZero, this`constOne, this`constTrue, this`constFalse
      ensures Synced() && code == old(code) + Constants(b) && nextId == b + 27
      ensures constZero == b + 23 && constOne == b + 24 && constTrue == b + 25 && constFalse == b + 26
    {
      hide Synced;
      ghost var at := code;
      constZero := EmitConstantF32(0);
      constOne := EmitConstantF32(0x3F80_0000);
      constTrue := EmitConstantBool(true);
      constFalse := EmitConstantBool(false);
      Added4(at, Inst(43, [types.f32, constZero, 0]), Inst(43, [types.f32, constOne, 0x3F80_0000]),
               Inst(41, [types.bool_, constTrue]), Inst(42, [types.bool_, constFalse]), Constants(b));
    }

    method EmitIoVariables(p: Program, ghost ids: Ids)
      requires Synced() && io == IoIds(p) == ids.io && types == TypesOf(ids)
      modifies this`words, this`code
      ensures Synced() && code == old(code) + IoVariables(p, ids)
    {
      hide Synced;
      ghost var at := code;
      NothingLast(at);
      var input, output := types.inputPtr, types.outputPtr;
      if p.IsVertex() {
        EmitInst(59, [input, io[0], 1]);
        EmitInst(59, [input, io[1], 1]);
        EmitInst(59, [output, io[2], 3]);
        EmitInst(59, [output, io[3], 3]);
        Added4(at, Inst(59, [input, io[0], 1]), Inst(59, [input, io[1], 1]), Inst(59, [output, io[2], 3]), Inst(59, [output, io[3], 3]), [Inst(59, [input, io[0], 1]), Inst(59, [input, io[1], 1]), Inst(59, [output, io[2], 3]), Inst(59, [output, io[3], 3])]);
      } else if p.IsFragment() {
        EmitInst(59, [input, io[0], 1]);
        EmitInst(59, [output, io[1], 3]);
        Added2(at, Inst(59, [input, io[0], 1]), Inst(59, [output, io[1], 3]), [Inst(59, [input, io[0], 1]), Inst(59, [output, io[1], 3])]);
      }
    }

    method EmitGlobalVariables(p: Program, ghost ids: Ids)
      requires Synced() && io == IoIds(p) == ids.io && types == TypesOf(ids) && cbufVar == ids.CbufVar() && texVar == ids.tex
      modifies this`words, this`code
      ensures Synced() && code == old(code) + GlobalVariables(p, ids)
    {
      hide Synced, IoVariables;
      ghost var at := code;
      EmitIoVariables(p, ids);
      EmitInst(59, [types.cbufPtr, cbufVar, 2]);
      NothingLast(code);
      if p.usesTextures {
        EmitInst(59, [types.imagePtr, texVar, 0]);
      }
      Associative3(at, IoVariables(p, ids), [Inst(59, [types.cbufPtr, cbufVar, 2])],
            if p.usesTextures then [Inst(59, [types.imagePtr, texVar, 0])] else []);
    }

    /** The function type, the function and its entry label. */
    method EmitFunctionStart(func: nat, ghost ids: Ids)
      requires Synced() && nextId == ids.base + 27 && types.void_ == ids.base && func == ids.Func()
      modifies this`words, this`code, this`nextId, this`bound
      ensures Synced() && code == old(code) + FunctionStart(ids) && nextId == ids.base + 29
    {
      hide Synced;
      ghost var at := code;
      var ty := EmitDecl(33, [types.void_]);
      EmitInst(54, [types.void_, func, 0, ty]);
      var entry := EmitDecl(248, []);
      assert [ty] + [types.void_] == [ty, types.void_];
      NothingLast([entry]);
      Added3(at, Inst(33, [ty, types.void_]), Inst(54, [types.void_, func, 0, ty]), Inst(248, [entry]), FunctionStart(ids));
    }

    /** Copies one input to one output. */
    method EmitCopy(from: nat, to: nat)
      requires Synced()
      modifies this`words, this`code, this`nextId, this`bound
      ensures Synced() && nextId == old(nextId) + 1
      ensures code == old(code) + [Inst(61, [types.vec4f32, old(nextId), from])] + [Inst(62, [to, old(nextId)])]
    {
      hide Synced;
      var value, a := EmitOp(61, types.vec4f32, [from]);
      assert a == Inst(61, [types.vec4f32, value, from]);
      EmitInst(62, [to, value]);
    }

    method EmitIoBody(p: Program, ghost env: Env)
      requires Synced() && io == IoIds(p) == env.ids.io && types == TypesOf(env.ids)
      modifies this`words, this`code, this`nextId, this`bound
      ensures Synced() && code == old(code) + IoBody(p, env, old(nextId)) && nextId == old(nextId) + IoCount(p)
    {
      hide Synced;
      ghost var at, n := code, nextId;
      NothingLast(at);
      if p.IsVertex() {
        EmitCopy(io[0], io[2]);
        EmitCopy(io[1], io[3]);
        Added4(at, Inst(61, [types.vec4f32, n, io[0]]), Inst(62, [io[2], n]), Inst(61, [types.vec4f32, n + 1, io[1]]), Inst(62, [io[3], n + 1]), [Inst(61, [types.vec4f32, n, io[0]]), Inst(62, [io[2], n]), Inst(61, [types.vec4f32, n + 1, io[1]]), Inst(62, [io[3], n + 1])]);
      } else if p.IsFragment() {
        EmitCopy(io[0], io[1]);
        Added2(at, Inst(61, [types.vec4f32, n, io[0]]), Inst(62, [io[1], n]), [Inst(61, [types.vec4f32, n, io[0]]), Inst(62, [io[1], n])]);
      }
    }

    method EmitEpilogue(insts: seq<IrInst>)
      requires Synced()
      modifies this`words, this`code
      ensures Synced() && code == old(code) + Epilogue(insts)
    {
      hide Synced;
      var hasKil := false;
      for n := 0 to |insts|
        invariant hasKil <==> HasKil(insts[..n])
      {
        assert insts[..n + 1] == insts[..n] + [insts[n]];
        if insts[n].opcode == Ctl(KIL) {
          hasKil := true;
          assert insts[..n + 1][n].opcode == Ctl(KIL);
        }
        assert forall k :: 0 <= k < n ==> insts[..n + 1][k] == insts[..n][k];
      }
      assert insts[..|insts|] == insts;
      ghost var at := code;
      if !hasKil {
        EmitInst(253, []);
        EmitInst(56, []);
        Added2(at, Inst(253, []), Inst(56, []), [Inst(253, []), Inst(56, [])]);
        assert [Inst(253, [])] + [Inst(56, [])] == [Inst(253, []), Inst(56, [])];
      } else {
        EmitInst(56, []);
        assert [] + [Inst(56, [])] == [Inst(56, [])];
      }
    }

    /** Everything before the function body. */
    method EmitGlobals(p: Program, ghost ids: Ids)
      requires Synced() && code == [] && nextId == 1 && ids == IdsOf(p, texVar)
      modifies this`words, this`code, this`nextId, this`bound, this`types, this`io, this`glslExt, this`cbufVar, this`texVar
      modifies this`constZero, this`constOne, this`constTrue, this`constFalse
      ensures Synced() && code == Globals(p, ids) + FunctionStart(ids) && nextId == Env(ids).Body()
      ensures Ready(Env(ids)) && io == ids.io
    {
      hide Synced, ModuleHead, Decorations, BaseTypes, Constants, GlobalVariables, FunctionStart;
      var func := EmitModuleHead(p, ids);
      EmitDecorations(p, ids);
      BuildBaseTypes(ids);
      EmitConstants(ids.base);
      EmitGlobalVariables(p, ids);
      EmitFunctionStart(func, ids);
    }

    /** The pass over the program, with the code before it in front. */
    method EmitFlow(p: Program, ghost stale: nat, vars: map<nat, nat>)
      requires BodyReady(Env(IdsOf(p, stale)), vars) && vars == GprsOf(p, stale).vars && nextId == GprsOf(p, stale).next + IoCount(p) > 1
      requires labels == map[] && stack == [] && preds == map[] && emitted == if p.insts == [] then {} else {p.insts[0].pc}
      modifies this`words, this`code, this`nextId, this`bound, this`labels, this`stack, this`preds, this`emitted
      ensures Synced() && nextId == FlowOf(p, stale).next > 1 && code == old(code) + FlowOf(p, stale).code
    {
      hide Synced, Ready, Flow, GprsOf;
      NothingLast(code);
      ghost var env := Env(IdsOf(p, stale));
      var cfg := BuildCfg(p.insts);
      FlowBehind(env, vars, p.insts, cfg, |p.insts|, code, FlowStart(p, nextId));
      EmitStructuredCfg(env, vars, p.insts, cfg);
    }

    /** The function body: register variables, the copied inputs, and the pass over the program. */
    method EmitBody(p: Program, ghost stale: nat)
      requires Synced() && nextId == Env(IdsOf(p, stale)).Body() && Ready(Env(IdsOf(p, stale))) && io == IoIds(p)
      requires labels == map[] && stack == [] && preds == map[] && emitted == {}
      modifies this`words, this`code, this`nextId, this`bound, this`labels, this`stack, this`preds, this`emitted
      ensures Synced() && nextId == FlowOf(p, stale).next > 1
      ensures var g := GprsOf(p, stale);
              code == old(code) + g.code + IoBody(p, Env(IdsOf(p, stale)), g.next) + FlowOf(p, stale).code
    {
      hide Synced, FlowOf, IoBody, BuildGprs;
      ghost var env, g := Env(IdsOf(p, stale)), GprsOf(p, stale);
      if p.insts != [] {
        emitted := {p.insts[0].pc};
      }
      var vars := BuildGprMap(p.insts);
      EmitIoBody(p, env);
      EmitFlow(p, stale, vars);
    }

    /** The whole module, and what it leaves behind for the next one. */
    method Emit(p: Program) returns (module_: seq<nat>)
      modifies this
      ensures module_ == words == ModuleWords(p, old(texVar), old(bound))
      ensures texVar == IdsOf(p, old(texVar)).tex && bound == BoundAfter(p, old(texVar), old(bound))
    {
      hide EncodeAll, Globals, FunctionStart, GprsOf, IoBody, FlowOf, Epilogue;
      ghost var stale, before := texVar, bound;
      Begin();
      EmitGlobals(p, IdsOf(p, stale));
      EmitBody(p, stale);
      EmitEpilogue(p.insts);
      assert code == Module(p, stale);
      Patched(EncodeAll(code), bound);
      words := words[3 := bound];
      module_ := words;
    }
  }

  // ── Control-flow analysis ──────────────────────────────────────────────

  /** The branch between an SSY and its SYNC, which says what kind of block it is. */
  method ScanBranch(insts: seq<IrInst>, from: nat, ssyPc: u32, syncPc: u32) returns (q: Pair)
    ensures q == FindBranch(insts, from, ssyPc, syncPc)
  {
    var j := from;
    while j < |insts|
      invariant FindBranch(insts, from, ssyPc, syncPc) == FindBranch(insts, j, ssyPc, syncPc)
    {
      if insts[j].opcode == Ctl(SYNC) && insts[j].pc == syncPc {
        break;
      }
      if insts[j].opcode == Ctl(BRA) {
        var target := LabelPc(insts[j].src0);
        return Pair(ssyPc, syncPc, target, if target < EmitterSpec.After(ssyPc) then Loop else Selection);
      }
      j := j + 1;
    }
    q := Pair(ssyPc, syncPc, 0, Normal);
  }

  method BuildCfg(insts: seq<IrInst>) returns (cfg: Cfg)
    ensures cfg == CfgOf(insts)
  {
    hide FindBranch;
    var pairs: seq<Pair> := [];
    for n := 0 to |insts|
      invariant pairs == PairsUpTo(insts, n)
    {
      if insts[n].opcode == Ctl(SSY) {
        var q := ScanBranch(insts, n + 1, insts[n].pc, LabelPc(insts[n].src0));
        pairs := pairs + [q];
      }
    }
    var starts: set<u32> := {};
    for k := 0 to |pairs|
      invariant starts == StartsOf(pairs[..k])
    {
      assert pairs[..k + 1][..k] == pairs[..k];
      starts := starts + {pairs[k].syncPc, EmitterSpec.After(pairs[k].ssyPc)};
      if pairs[k].braTarget != 0 {
        starts := starts + {pairs[k].braTarget};
      }
    }
    assert pairs[..|pairs|] == pairs;
    if insts != [] {
      starts := starts + {insts[0].pc};
    }
    cfg := Cfg(pairs, starts);
  }

  lemma LoadsGrow(env: Env, vars: map<nat, nat>, i: IrInst, n: nat, next: nat, start: seq<Inst>)
    requires n < 3
    ensures var r := i.Src(n).Reg();
            start + LoadCode(env, vars, i, n + 1, next) ==
            if r in vars then start + LoadCode(env, vars, i, n, next) + [Inst(61, [env.F32(), next + Mapped(vars, i, n), vars[r]])]
            else start + LoadCode(env, vars, i, n, next)
    ensures Mapped(vars, i, n + 1) == Mapped(vars, i, n) + if i.Src(n).Reg() in vars then 1 else 0
    ensures start + LoadCode(env, vars, i, 0, next) == start && Mapped(vars, i, 0) == 0
  {
  }

  lemma NamedWords(start: seq<nat>, op: nat, before: seq<nat>, name: string, after: seq<nat>)
    ensures var i := Inst(op, before + StringWords(name) + after);
            start + [(1 + |before| + (|name| / 4 + 1) + |after|) * WORD + op] + before + StringWords(name) + after == start + Encode(i)
  {
  }

  lemma Patched(tail: seq<nat>, bound: nat)
    ensures (HEADER + tail)[3 := bound] == [0x0723_0203, 0x0001_0000, 0, bound, 0] + tail
  {
  }

  lemma RefTemp(env: Env, n: nat, k: nat)
    ensures RefId(env, n, T(k)) == n + k
  {
  }

  /** Vector types of one component type under consecutive ids. */
  function Vectors(n: nat, component: nat): seq<Inst> {
    [Inst(23, [n, component, 2]), Inst(23, [n + 1, component, 3]), Inst(23, [n + 2, component, 4])]
  }

  /** The sections of the types, regrouped. */
  lemma TypeSections(at: seq<Inst>, ids: Ids, v: seq<Inst>, w: seq<Inst>, x: seq<Inst>)
    requires var b := ids.base; v == Vectors(b + 5, b + 2) && w == Vectors(b + 8, b + 3) && x == Vectors(b + 11, b + 4)
    ensures at + ScalarTypes(ids.base) + v + w + x + PointerTypes(ids.base)[..4] + PointerTypes(ids.base)[4..]
            + CbufTypes(ids.base, ids.CbufArray()) + LastTypes(ids.base, ids.CbufStruct()) == at + BaseTypes(ids)
  {
    var b := ids.base;
    assert v + w + x == VectorTypes(b);
    assert PointerTypes(b)[..4] + PointerTypes(b)[4..] == PointerTypes(b);
    Regroup(at, ScalarTypes(b), v, w, x, PointerTypes(b)[..4], PointerTypes(b)[4..],
            CbufTypes(b, ids.CbufArray()), LastTypes(b, ids.CbufStruct()));
  }

  lemma Regroup<T>(at: seq<T>, a: seq<T>, b: seq<T>, c: seq<T>, d: seq<T>, e: seq<T>, f: seq<T>, g: seq<T>, h: seq<T>)
    ensures at + a + b + c + d + e + f + g + h == at + (a + (b + c + d) + (e + f) + g + h)
  {
  }

  /** The bytes of a word that are or-ed in so far. */
  function PartialWord(s: string, i: nat, j: nat): nat
    requires j <= 4
  {
    (if j > 0 then CharByte(s, i) else 0) + (if j > 1 then CharByte(s, i + 1) * 0x100 else 0)
    + (if j > 2 then CharByte(s, i + 2) * 0x1_0000 else 0) + (if j > 3 then CharByte(s, i + 3) * 0x100_0000 else 0)
  }
}
