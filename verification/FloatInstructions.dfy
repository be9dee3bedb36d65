/**
 Float instructions with everything the decoder can put on them: negated and
 absolute sources, a saturated result and a predicate guard. What such an
 instruction should do, and exactly which of them the emitted code does.
 */
module FloatInstructions {
  import opened Common
  import opened ShaderIr
  import opened EmitterSpec
  import opened SpirvMachine
  import opened RecipeMeaning
  import opened CompilerCorrectness
  import opened MaxwellDecoder

  // ── What an instruction should do ──────────────────────────────────────

  /** A source with its modifiers: the absolute value is taken first. */
  function Modified(fp: FloatOps, o: Operand, w: u32): u32 {
    var v := if o.absolute then fp.abs(w) else w;
    if o.negate then fp.neg(v) else v
  }

  function Saturated(fp: FloatOps, o: Operand, w: u32): u32 {
    if o.saturate then fp.clamp(w, 0, ONE_F32) else w
  }

  /** The word a float instruction should write; None when its operation has no name. */
  function MeantWord(fp: FloatOps, i: IrInst, a: u32, b: u32, c: u32): Option<u32>
    requires i.opcode.Flt?
  {
    match NamedFloat(fp, i.opcode.float, i.src0.mufu, Modified(fp, i.src0, a), Modified(fp, i.src1, b), Modified(fp, i.src2, c))
    case None => None
    case Some(w) => Some(Saturated(fp, i.dest, w))
  }

  /** A guarded instruction runs only when its predicate is true, or false if the guard is negated. */
  predicate Runs(i: IrInst, preds: nat -> bool) {
    i.guard ==> preds(i.guardIndex) != i.guardNegate
  }

  /** The register file a float instruction should leave. */
  function Meant(fp: FloatOps, i: IrInst, preds: nat -> bool, regs: Regs): Option<Regs>
    requires i.opcode.Flt?
  {
    if !Runs(i, preds) then Some(regs)
    else
      match MeantWord(fp, i, regs[i.src0.Reg()], regs[i.src1.Reg()], regs[i.src2.Reg()])
      case None => None
      case Some(w) => Some(regs[i.dest.Reg() := w])
  }

  /** A float instruction with a register to write and all its sources. */
  predicate Complete(i: IrInst) {
    i.opcode.Flt? && i.dest.kind.KGpr? && NamedArity(i.opcode.float) <= i.srcCount
  }

  /** Without guard, without saturation, and without modifiers on the sources it reads. */
  predicate Plain(i: IrInst)
    requires i.opcode.Flt?
  {
    !i.guard && !i.dest.saturate && forall k: nat :: k < NamedArity(i.opcode.float) ==> !i.Src(k).negate && !i.Src(k).absolute
  }

  // ── What the emitted code does ─────────────────────────────────────────

  /** The word the recipe of a float opcode writes, whatever the modifiers. */
  function EmittedWord(fp: FloatOps, op: FloatOp, mufu: nat, a: u32, b: u32, c: u32): u32 {
    if WellNumbered(op, mufu) then FloatValue(fp, op, mufu, a, b, c)
    else if op == FEX2 || (op == MUFU && mufu == MUFU_EX2) then fp.asinh(a)
    else if op == FLG2 || (op == MUFU && mufu == MUFU_LG2) then fp.atanh(a)
    else a
  }

  lemma EmittedComputed(fp: FloatOps, op: FloatOp, mufu: nat, a: u32, b: u32, c: u32)
    ensures FloatRecipe(op, mufu, true).Some?
    ensures Computes(fp, FloatRecipe(op, mufu, true).value, Loaded(NamedArity(op), a, b, c), EmittedWord(fp, op, mufu, a, b, c))
  {
    hide Computes, FloatValue, FloatExt1, Pass, FloatRecipe;
    if WellNumbered(op, mufu) {
      FloatLowered(fp, op, mufu, true, a, b, c);
    } else {
      WrongRecipe(op, mufu);
      ExponentsComputed(fp, a);
      PassComputes(fp, a);
    }
  }

  /** The recipes of the opcodes without a right number. */
  lemma WrongRecipe(op: FloatOp, mufu: nat)
    requires !WellNumbered(op, mufu)
    ensures FloatRecipe(op, mufu, true) ==
            Some(if op == FEX2 || (op == MUFU && mufu == MUFU_EX2) then FloatExt1(22)
                 else if op == FLG2 || (op == MUFU && mufu == MUFU_LG2) then FloatExt1(24)
                 else Pass(1))
  {
    hide FloatExt1, Pass;
  }

  /** Where an instruction stands: the ids in use and the variables of its registers and of the predicates known so far. */
  ghost predicate Placed(env: Env, vars: map<nat, nat>, known: map<nat, nat>, i: IrInst, next: nat)
    requires i.opcode.Flt?
  {
    && env.ids.base > 2 && env.Body() <= next && vars.Values !! known.Values
    && (forall r :: r in vars ==> r < 256)
    && (forall p, q :: p in vars && q in vars && p != q ==> vars[p] != vars[q])
    && i.dest.Reg() in vars && forall k: nat :: k < NamedArity(i.opcode.float) ==> i.Src(k).Reg() in vars
  }

  /** The predicate variables hold the predicates. */
  ghost predicate PredicatesHold(m: Machine, known: map<nat, nat>, preds: nat -> bool) {
    forall p :: p in known ==> known[p] in m.vars && m.vars[known[p]] == VB(preds(p))
  }

  /** The code of an instruction has its word written, whatever its modifiers and its guard say. */
  lemma ModifiersDropped(fp: FloatOps, m: Machine, env: Env, vars: map<nat, nat>, known: map<nat, nat>, regs: Regs, i: IrInst, next: nat)
    returns (m': Machine)
    requires Complete(i) && Placed(env, vars, known, i, next) && Related(m, env, vars, regs)
    ensures Exec(fp, m, InstOut(env, vars, known, i, next).code) == Some(m')
    ensures VarsHold(m', vars, regs[i.dest.Reg() :=
              EmittedWord(fp, i.opcode.float, i.src0.mufu, regs[i.src0.Reg()], regs[i.src1.Reg()], regs[i.src2.Reg()])])
  {
    hide EmittedWord, Computes, FloatRecipe, RecipeOut, Exec, VarsHold, EnvOk;
    var a, b, c := regs[i.src0.Reg()], regs[i.src1.Reg()], regs[i.src2.Reg()];
    var n, w := NamedArity(i.opcode.float), EmittedWord(fp, i.opcode.float, i.src0.mufu, a, b, c);
    EmittedComputed(fp, i.opcode.float, i.src0.mufu, a, b, c);
    var r := FloatRecipe(i.opcode.float, i.src0.mufu, true).value;
    assert RecipeOf(i, env.ids.tex) == Some(r);
    SourcesLoaded(i, regs, n);
    LoadsOf(fp, r, Loaded(n, a, b, c), w);
    m' := RecipeSim(fp, m, env, vars, regs, i, r, w, next);
    SameCode(fp, env, vars, known, i, r, Loaded(n, a, b, c), w, next);
  }

  /** A recipe that stores to a register does not look at the predicates. */
  lemma SameCode(fp: FloatOps, env: Env, vars: map<nat, nat>, known: map<nat, nat>, i: IrInst, r: Recipe, loaded: seq<Val>, w: u32, next: nat)
    requires r.loads <= 3 && Computes(fp, r, loaded, w)
    ensures RecipeOut(env, vars, known, i, r, next).code == RecipeOut(env, vars, map[], i, r, next).code
  {
    hide EvalBody;
  }

  function Bare(o: Operand): Operand {
    o.(negate := false, absolute := false, saturate := false)
  }

  /** An instruction of any kind without its guard and its operands' modifiers. */
  function Stripped(i: IrInst): IrInst {
    i.(dest := Bare(i.dest), src0 := Bare(i.src0), src1 := Bare(i.src1), src2 := Bare(i.src2),
       guard := false, guardIndex := 0, guardNegate := false)
  }

  lemma {:induction false} LoadsStripped(env: Env, vars: map<nat, nat>, i: IrInst, n: nat, next: nat)
    requires n <= 3
    ensures LoadCode(env, vars, Stripped(i), n, next) == LoadCode(env, vars, i, n, next)
    ensures Mapped(vars, Stripped(i), n) == Mapped(vars, i, n)
  {
    if n > 0 {
      LoadsStripped(env, vars, i, n - 1, next);
    }
  }

  /** No opcode's code depends on the guard or on a modifier; only the pass looks at guards, and only at those of branches. */
  lemma ModifiersIgnored(env: Env, vars: map<nat, nat>, known: map<nat, nat>, i: IrInst, next: nat)
    ensures InstOut(env, vars, known, i, next) == InstOut(env, vars, known, Stripped(i), next)
  {
    hide RecipeOf, RecipeOut;
    RecipeStripped(i, env.ids.tex);
    match RecipeOf(i, env.ids.tex)
    case None =>
    case Some(r) => OutStripped(env, vars, known, i, r, next);
  }

  lemma RecipeStripped(i: IrInst, tex: nat)
    ensures RecipeOf(Stripped(i), tex) == RecipeOf(i, tex)
  {
    hide FloatRecipe, IntRecipe, SpecialRecipe, ToInt, Pass, Fallback, FloatCompare, FloatSet, ConstantLoad, Sample;
  }

  lemma OutStripped(env: Env, vars: map<nat, nat>, known: map<nat, nat>, i: IrInst, r: Recipe, next: nat)
    requires r.loads <= 3
    ensures RecipeOut(env, vars, known, Stripped(i), r, next) == RecipeOut(env, vars, known, i, r, next)
  {
    hide LoadCode, BodyCode, Mapped, RefId;
    LoadsStripped(env, vars, i, r.loads, next);
  }

  // ── Which instructions are compiled right ──────────────────────────────

  /** Running the code leaves the register file the instruction should leave. */
  ghost predicate Correct(fp: FloatOps, m: Machine, env: Env, vars: map<nat, nat>, known: map<nat, nat>, i: IrInst, next: nat,
                          preds: nat -> bool, regs: Regs)
    requires i.opcode.Flt?
  {
    var end, meant := Exec(fp, m, InstOut(env, vars, known, i, next).code), Meant(fp, i, preds, regs);
    end.Some? && meant.Some? && VarsHold(end.value, vars, meant.value)
  }

  /** It does so for all float operations, on every machine, for all registers and predicates it may hold. */
  ghost predicate AlwaysCorrect(env: Env, vars: map<nat, nat>, known: map<nat, nat>, i: IrInst, next: nat)
    requires i.opcode.Flt?
  {
    forall fp: FloatOps, m: Machine, preds: nat -> bool, regs: Regs ::
      Related(m, env, vars, regs) && PredicatesHold(m, known, preds) ==> Correct(fp, m, env, vars, known, i, next, preds, regs)
  }

  /** Float operations under which every operation on zeros gives more than zero, and every modifier tells. */
  function Marking(): FloatOps {
    var one := (a: u32) => ((a + 1) % 0x1_0000_0000) as u32;
    var two := (a: u32, b: u32) => ((a + 4 * b + 1) % 0x1_0000_0000) as u32;
    FloatOps(two, two, two, two, one, (a: u32) => ((a + 2) % 0x1_0000_0000) as u32, two, two,
             (a: u32, b: u32, c: u32) => ((a + 64) % 0x1_0000_0000) as u32,
             one, one, one, one, one, one, one, one, one, one, one, one, one, one)
  }

  lemma MarkedSources(o: Operand)
    ensures Modified(Marking(), o, 0) == (if o.absolute then 2 else 0) + (if o.negate then 1 else 0)
  {
  }

  /** Modifiers that are dropped show at the word zero. */
  lemma MarkingTells(i: IrInst)
    requires i.opcode.Flt? && WellNumbered(i.opcode.float, i.src0.mufu)
    ensures EmittedWord(Marking(), i.opcode.float, i.src0.mufu, 0, 0, 0) > 0
    ensures !i.guard && !Plain(i) ==>
              MeantWord(Marking(), i, 0, 0, 0) != Some(EmittedWord(Marking(), i.opcode.float, i.src0.mufu, 0, 0, 0))
  {
    hide Modified, FloatValue, WellNumbered, NamedArity;
    var op, mufu := i.opcode.float, i.src0.mufu;
    MarkedSources(i.src0);
    MarkedSources(i.src1);
    MarkedSources(i.src2);
    assert i.Src(0) == i.src0 && i.Src(1) == i.src1 && i.Src(2) == i.src2;
    var x, y, z := Modified(Marking(), i.src0, 0), Modified(Marking(), i.src1, 0), Modified(Marking(), i.src2, 0);
    MarkedValue(op, mufu, x, y, z);
    MarkedNamed(op, mufu, x, y, z);
  }

  lemma MarkedNamed(op: FloatOp, mufu: nat, a: u32, b: u32, c: u32)
    requires WellNumbered(op, mufu)
    ensures NamedFloat(Marking(), op, mufu, a, b, c) == Some(FloatValue(Marking(), op, mufu, a, b, c))
  {
    hide Marking;
  }

  /** Every source that an opcode reads counts. */
  lemma MarkedValue(op: FloatOp, mufu: nat, x: u32, y: u32, z: u32)
    requires WellNumbered(op, mufu) && x <= 3 && y <= 3 && z <= 3
    ensures var v, w := FloatValue(Marking(), op, mufu, 0, 0, 0), FloatValue(Marking(), op, mufu, x, y, z);
            && 0 < v <= w < 0x8000_0000
            && (x > 0 || (y > 0 && NamedArity(op) >= 2) || (z > 0 && NamedArity(op) >= 3) ==> v < w)
  {
    if op == MUFU {
      hide Marking, MufuValue;
      MarkedMufu(mufu, x);
    } else if NamedArity(op) == 1 {
      MarkedUnary(op, mufu, x, y, z);
    } else if op == FMAD {
      hide Marking;
      MarksTwo(0, 0);
      MarksTwo(x, y);
      MarksTwo(1, 0);
      MarksTwo(x + 4 * y + 1, z);
    } else {
      hide Marking;
      MarksTwo(0, 0);
      MarksTwo(x, y);
    }
  }

  lemma MarkedUnary(op: FloatOp, mufu: nat, x: u32, y: u32, z: u32)
    requires WellNumbered(op, mufu) && NamedArity(op) == 1 && op != MUFU && x <= 3
    ensures var v, w := FloatValue(Marking(), op, mufu, 0, 0, 0), FloatValue(Marking(), op, mufu, x, y, z);
            0 < v <= w < 0x8000_0000 && (x > 0 ==> v < w)
  {
    hide Marking;
    MarksOne(0);
    MarksOne(x);
    MarksTwo(ONE_F32, 0);
    MarksTwo(ONE_F32, x);
  }

  lemma MarkedMufu(mufu: nat, x: u32)
    requires ScalarMufu(mufu) && x <= 3
    ensures 0 < MufuValue(Marking(), mufu, 0) <= MufuValue(Marking(), mufu, x) < 0x8000_0000
    ensures x > 0 ==> MufuValue(Marking(), mufu, 0) < MufuValue(Marking(), mufu, x)
  {
    hide Marking;
    MarksOne(0);
    MarksOne(x);
    MarksTwo(ONE_F32, 0);
    MarksTwo(ONE_F32, x);
  }

  lemma MarksTwo(a: u32, b: u32)
    requires a <= ONE_F32 && b <= 3
    ensures var fp := Marking(); fp.add(a, b) == fp.mul(a, b) == fp.div(a, b) == fp.min(a, b) == fp.max(a, b) == a + 4 * b + 1
  {
  }

  lemma MarksOne(a: u32)
    requires a <= 3
    ensures var fp := Marking();
            && fp.neg(a) == fp.sqrt(a) == fp.invSqrt(a) == fp.sin(a) == fp.cos(a) == fp.tan(a) == fp.floor(a) == fp.ceil(a) == a + 1
            && fp.abs(a) == a + 2 && fp.clamp(a, 0, ONE_F32) == a + 64
  {
  }

  /** A wrong number shows at the word zero, whatever the modifiers. */
  lemma TellingTells(i: IrInst)
    requires i.opcode.Flt? && !WellNumbered(i.opcode.float, i.src0.mufu)
    ensures MeantWord(Telling(), i, 0, 0, 0) != Some(EmittedWord(Telling(), i.opcode.float, i.src0.mufu, 0, 0, 0))
  {
  }

  const ZEROS: Regs := seq(256, k => 0)

  /** A machine whose registers are all zero and whose predicates all have one value. */
  function Blank(env: Env, vars: map<nat, nat>, known: map<nat, nat>, value: bool): Machine {
    Machine(map[env.F32() := F32, env.I32() := I32, env.U32() := U32, env.Bool() := Bool],
            map[env.Zero() := VF(0), env.One() := VF(ONE_F32), env.ids.Glsl() := VGlsl],
            map x | x in vars.Values + known.Values :: if x in vars.Values then VF(0) else VB(value),
            vars.Values)
  }

  lemma BlankFits(env: Env, vars: map<nat, nat>, known: map<nat, nat>, i: IrInst, next: nat, value: bool)
    requires i.opcode.Flt? && Placed(env, vars, known, i, next)
    ensures Related(Blank(env, vars, known, value), env, vars, ZEROS)
    ensures PredicatesHold(Blank(env, vars, known, value), known, p => value)
  {
    var m := Blank(env, vars, known, value);
    forall p | p in known ensures known[p] in m.vars && m.vars[known[p]] == VB(value) {
      assert known[p] in known.Values;
    }
  }

  /** The right instructions are compiled right. */
  lemma PlainCorrect(fp: FloatOps, m: Machine, env: Env, vars: map<nat, nat>, known: map<nat, nat>, i: IrInst, next: nat,
                     preds: nat -> bool, regs: Regs)
    requires Complete(i) && Placed(env, vars, known, i, next) && Related(m, env, vars, regs)
    requires WellNumbered(i.opcode.float, i.src0.mufu) && Plain(i)
    ensures Correct(fp, m, env, vars, known, i, next, preds, regs)
  {
    hide Exec, Related, InstOut, VarsHold;
    var m' := ModifiersDropped(fp, m, env, vars, known, regs, i, next);
    PlainWord(fp, i, regs[i.src0.Reg()], regs[i.src1.Reg()], regs[i.src2.Reg()]);
  }

  lemma PlainWord(fp: FloatOps, i: IrInst, a: u32, b: u32, c: u32)
    requires i.opcode.Flt? && WellNumbered(i.opcode.float, i.src0.mufu) && Plain(i)
    ensures MeantWord(fp, i, a, b, c) == Some(EmittedWord(fp, i.opcode.float, i.src0.mufu, a, b, c))
  {
    assert i.Src(0) == i.src0 && i.Src(1) == i.src1 && i.Src(2) == i.src2;
  }

  /** Every other instruction goes wrong somewhere. */
  lemma OthersWrong(env: Env, vars: map<nat, nat>, known: map<nat, nat>, i: IrInst, next: nat)
    requires Complete(i) && Placed(env, vars, known, i, next)
    requires !WellNumbered(i.opcode.float, i.src0.mufu) || !Plain(i)
    ensures !AlwaysCorrect(env, vars, known, i, next)
  {
    hide Exec, Related, InstOut, Marking, Telling, MeantWord, EmittedWord, WellNumbered, Plain, Blank;
    var right := WellNumbered(i.opcode.float, i.src0.mufu);
    var fp := if right then Marking() else Telling();
    // A guard is made to fail only where the rest of the instruction is right.
    var value := if right then i.guardNegate else !i.guardNegate;
    var m, preds := Blank(env, vars, known, value), (p: nat) => value;
    BlankFits(env, vars, known, i, next, value);
    var m' := ModifiersDropped(fp, m, env, vars, known, ZEROS, i, next);
    if right {
      MarkingTells(i);
    } else {
      TellingTells(i);
    }
    assert !Correct(fp, m, env, vars, known, i, next, preds, ZEROS);
  }

  /**
   The code emitted for a float instruction does what the instruction says, for
   all float operations, registers and predicates, if and only if its opcode has
   the right number and it has no guard, no saturation and no source modifiers.
   */
  lemma FloatInstExact(env: Env, vars: map<nat, nat>, known: map<nat, nat>, i: IrInst, next: nat)
    requires Complete(i) && Placed(env, vars, known, i, next)
    ensures AlwaysCorrect(env, vars, known, i, next) <==> WellNumbered(i.opcode.float, i.src0.mufu) && Plain(i)
  {
    hide Correct, Related, WellNumbered, Plain, Placed, PredicatesHold;
    if WellNumbered(i.opcode.float, i.src0.mufu) && Plain(i) {
      forall fp: FloatOps, m: Machine, preds: nat -> bool, regs: Regs | Related(m, env, vars, regs) && PredicatesHold(m, known, preds)
        ensures Correct(fp, m, env, vars, known, i, next, preds, regs)
      {
        PlainCorrect(fp, m, env, vars, known, i, next, preds, regs);
      }
    } else {
      OthersWrong(env, vars, known, i, next);
    }
  }

  // ── Decoded words ──────────────────────────────────────────────────────

  /** The modifier bits that the word's format has for the sources its opcode reads are clear, and so is the saturation bit. */
  predicate Unmodified(w: nat) {
    var format := FormatOf(OpcodeId(w));
    var arity := match OpcodeOf(OpcodeId(w), format) case Flt(op) => NamedArity(op) case _ => 0;
    format == Alu1In
    || (&& !Bit(w, 45) && !Bit(w, 47) && !Bit(w, 49)
        && (arity >= 2 ==> !Bit(w, 46))
        && (format == Alu3In ==> !Bit(w, 48)))
  }

  lemma FloatDecoded(w: nat, pc: u32, i: IrInst)
    requires i == ToIr(DecodeWord(w, pc)) && i.opcode.Flt?
    ensures Complete(i) && (Plain(i) <==> Unmodified(w))
  {
    hide Bits, Bit;
    assert i.Src(0) == i.src0 && i.Src(1) == i.src1 && i.Src(2) == i.src2;
  }

  /** Exactly the float words without modifier bits and with a rightly numbered opcode are compiled right. */
  lemma FloatWordExact(w: nat, pc: u32, i: IrInst, env: Env, vars: map<nat, nat>, known: map<nat, nat>, next: nat)
    requires i == ToIr(DecodeWord(w, pc)) && i.opcode.Flt? && Placed(env, vars, known, i, next)
    ensures AlwaysCorrect(env, vars, known, i, next) <==> WellNumbered(i.opcode.float, i.src0.mufu) && Unmodified(w)
  {
    hide AlwaysCorrect, WellNumbered, Plain, Unmodified, Placed, DecodeWord, ToIr;
    FloatDecoded(w, pc, i);
    FloatInstExact(env, vars, known, i, next);
  }
}
