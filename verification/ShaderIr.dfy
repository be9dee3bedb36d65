/**
 The shader intermediate representation between the Maxwell decoder and the
 SPIR-V emitter, and the meaning of its scalar instructions on a register file.
 */
module ShaderIr {
  import opened Common

  /** A source count: an instruction has room for three sources. */
  type Count = n: nat | n <= 3

  datatype Stage = VertexA | VertexB | TessControl | TessEval | Geometry | Fragment | Compute

  // Opcodes, in the categories of their high byte.
  datatype Control = NOP | EXIT | BRA | SSY | SYNC | CALL | RET | KIL | CONT | BREAK
  datatype FloatOp =
    FMAD | FADD | FMUL | FMAX | FMIN | FSAT | FNEG | FABS | FRCP | FRSQ | FSQRT | FEX2 | FLG2 | FSIN | FCOS | MUFU
  datatype IntOp =
    IADD | IMUL | IMAD | ISUB | IABS | INEG | ISETP | I2F | I2I | IADD3 | IMNMX | LEA | POPC | FLO | SHL | SHR
  datatype ConvertOp = F2F | F2I | F2F_C
  datatype CompareOp = FSETP | FSET
  datatype LoadOp = LD | LDC | LDS | LL | LG | LEA_LOAD
  datatype StoreOp = ST | STS | STG | STL
  datatype TextureOp = TEX | TEXS | TLDS | TLD4 | TXQ
  datatype SpecialOp = S2R | R2P | P2R | PRMT | BFE | BFI | ATOM | BAR | DEPBAR | VOTE | YIELD | MEMBAR

  datatype Opcode =
    | Ctl(control: Control) | Flt(float: FloatOp) | Int(int_: IntOp) | Cvt(convert: ConvertOp) | Cmp(compare: CompareOp)
    | Load(load: LoadOp) | Store(store: StoreOp) | Tex(texture: TextureOp) | Spc(special: SpecialOp)

  datatype OperandKind =
    | KNone | KGpr | KPredicate | KFloatImm | KIntImm | KBoolImm | KCbuf | KAttribute | KVarying
    | KSpecialReg | KAddress | KIndex | KFlag | KTexture | KSampler | KLabel

  /**
   An operand. The source keeps its payload in a union whose first word is read
   as a register index (its low byte) or as a label (the whole word) without
   looking at the kind, so the model keeps that word.
   */
  datatype Operand = Operand(kind: OperandKind, bits: u32, negate: bool, absolute: bool, saturate: bool, mufu: nat) {
    function Reg(): (r: nat)
      ensures r < 256
    {
      bits % 256
    }

    /** A general-purpose register without a modifier. */
    predicate PlainGpr() {
      kind.KGpr? && !negate && !absolute && !saturate
    }
  }

  datatype IrInst = IrInst(
    opcode: Opcode, dest: Operand, src0: Operand, src1: Operand, src2: Operand, srcCount: Count, pc: u32,
    guard: bool, guardIndex: nat, guardNegate: bool)
  {
    function Src(k: nat): Operand
      requires k < 3
    {
      if k == 0 then src0 else if k == 1 then src1 else src2
    }
  }

  datatype Program = Program(stage: Stage, insts: seq<IrInst>, usesTextures: bool) {
    predicate IsVertex() { stage.VertexA? || stage.VertexB? }
    predicate IsFragment() { stage.Fragment? }
  }

  // ── Arithmetic on 32-bit words ─────────────────────────────────────────

  function Add32(a: u32, b: u32): u32 { (a + b) % 0x1_0000_0000 }
  function Sub32(a: u32, b: u32): u32 { (a - b) % 0x1_0000_0000 }
  function Mul32(a: u32, b: u32): u32 { (a * b) % 0x1_0000_0000 }
  function Neg32(a: u32): u32 { (0 - a) % 0x1_0000_0000 }
  /** The absolute value of a two's-complement word; the most negative word is its own. */
  function Abs32(a: u32): u32 { if a < 0x8000_0000 then a else Neg32(a) }

  const ONE_F32: u32 := 0x3F80_0000

  /** Float operations on 32-bit words: any interpretation will do. */
  datatype FloatOps = FloatOps(
    add: (u32, u32) -> u32, sub: (u32, u32) -> u32, mul: (u32, u32) -> u32, div: (u32, u32) -> u32,
    neg: u32 -> u32, abs: u32 -> u32, min: (u32, u32) -> u32, max: (u32, u32) -> u32,
    clamp: (u32, u32, u32) -> u32,
    sqrt: u32 -> u32, invSqrt: u32 -> u32, sin: u32 -> u32, cos: u32 -> u32, tan: u32 -> u32,
    floor: u32 -> u32, ceil: u32 -> u32, exp2: u32 -> u32, log2: u32 -> u32,
    asinh: u32 -> u32, atanh: u32 -> u32, cbrt: u32 -> u32,
    toSigned: u32 -> u32, fromSigned: u32 -> u32)

  // ── Meaning of the scalar instructions ─────────────────────────────────

  const MUFU_COS: nat := 0
  const MUFU_SIN: nat := 1
  const MUFU_EX2: nat := 2
  const MUFU_LG2: nat := 3
  const MUFU_RCP: nat := 4
  const MUFU_RSQ: nat := 5
  const MUFU_SQRT: nat := 6
  const MUFU_CBRT: nat := 7
  const MUFU_TAN: nat := 8
  const MUFU_FLOOR: nat := 9
  const MUFU_CEIL: nat := 10

  /** The multi-function-unit operations whose GLSL.std.450 number the emitter has right. */
  predicate ScalarMufu(op: nat) {
    op == MUFU_COS || op == MUFU_SIN || op == MUFU_RCP || op == MUFU_RSQ || op == MUFU_SQRT || op == MUFU_TAN
    || op == MUFU_FLOOR || op == MUFU_CEIL
  }

  function MufuValue(fp: FloatOps, op: nat, a: u32): u32
    requires ScalarMufu(op)
  {
    if op == MUFU_COS then fp.cos(a)
    else if op == MUFU_SIN then fp.sin(a)
    else if op == MUFU_RCP then fp.div(ONE_F32, a)
    else if op == MUFU_RSQ then fp.invSqrt(a)
    else if op == MUFU_SQRT then fp.sqrt(a)
    else if op == MUFU_TAN then fp.tan(a)
    else if op == MUFU_FLOOR then fp.floor(a)
    else fp.ceil(a)
  }

  function FloatArity(op: FloatOp, mufu: nat): nat {
    match op
    case FMAD => 3
    case FADD | FMUL | FMAX | FMIN => 2
    case FSAT | FNEG | FABS | FRCP | FRSQ | FSQRT => 1
    case MUFU => if ScalarMufu(mufu) then 1 else 0
    case FEX2 | FLG2 | FSIN | FCOS => 0
  }

  function IntArity(op: IntOp): nat {
    match op
    case IMAD | IADD3 => 3
    case IADD | ISUB | IMUL => 2
    case INEG | IABS | I2F | I2I => 1
    case _ => 0
  }

  /** How many registers a scalar instruction reads; zero for the other instructions. */
  function Arity(op: Opcode, mufu: nat): (n: nat)
    ensures n <= 3
  {
    match op
    case Flt(f) => FloatArity(f, mufu)
    case Int(n) => IntArity(n)
    case Cvt(v) => if v.F2F_C? then 0 else 1
    case _ => 0
  }

  function FloatValue(fp: FloatOps, op: FloatOp, mufu: nat, a: u32, b: u32, c: u32): u32
    requires FloatArity(op, mufu) > 0
  {
    match op
    case FMAD => fp.add(fp.mul(a, b), c)
    case FADD => fp.add(a, b)
    case FMUL => fp.mul(a, b)
    case FMAX => fp.max(a, b)
    case FMIN => fp.min(a, b)
    case FSAT => fp.clamp(a, 0, ONE_F32)
    case FNEG => fp.neg(a)
    case FABS => fp.abs(a)
    case FRCP => fp.div(ONE_F32, a)
    case FRSQ => fp.invSqrt(a)
    case FSQRT => fp.sqrt(a)
    case MUFU => MufuValue(fp, mufu, a)
  }

  function IntValue(fp: FloatOps, op: IntOp, a: u32, b: u32, c: u32): u32
    requires IntArity(op) > 0
  {
    match op
    case IADD => Add32(a, b)
    case ISUB => Sub32(a, b)
    case IMUL => Mul32(a, b)
    case IMAD => Add32(Mul32(a, b), c)
    case IADD3 => Add32(Add32(a, b), c)
    case INEG => Neg32(a)
    case IABS => Abs32(a)
    case I2F => fp.fromSigned(a)
    case I2I => a
  }

  /** The word a scalar instruction writes, from the words it reads. */
  function Value(fp: FloatOps, op: Opcode, mufu: nat, a: u32, b: u32, c: u32): u32
    requires Arity(op, mufu) > 0
  {
    match op
    case Flt(f) => FloatValue(fp, f, mufu, a, b, c)
    case Int(n) => IntValue(fp, n, a, b, c)
    case Cvt(v) => if v.F2I? then fp.toSigned(a) else a
  }

  type Regs = r: seq<u32> | |r| == 256 witness seq(256, i => 0)

  /** A scalar instruction over plain registers, unguarded, with all its sources present. */
  predicate Scalar(i: IrInst) {
    && Arity(i.opcode, i.src0.mufu) > 0
    && i.dest.PlainGpr() && !i.guard
    && Arity(i.opcode, i.src0.mufu) <= i.srcCount
    && forall k: nat :: k < Arity(i.opcode, i.src0.mufu) ==> i.Src(k).PlainGpr()
  }

  function IrStep(fp: FloatOps, regs: Regs, i: IrInst): Regs {
    if Arity(i.opcode, i.src0.mufu) > 0 then
      regs[i.dest.Reg() :=
        Value(fp, i.opcode, i.src0.mufu, regs[i.src0.Reg()], regs[i.src1.Reg()], regs[i.src2.Reg()])]
    else regs
  }

  /** The register file after a run of straight-line instructions. */
  function IrRun(fp: FloatOps, insts: seq<IrInst>, regs: Regs): Regs {
    if insts == [] then regs
    else IrStep(fp, IrRun(fp, insts[..|insts| - 1], regs), insts[|insts| - 1])
  }

  /** A straight-line program: scalar instructions and no-ops, then EXIT. */
  predicate StraightLine(p: Program) {
    && p.insts != [] && p.insts[|p.insts| - 1].opcode == Ctl(EXIT)
    && forall k :: 0 <= k < |p.insts| - 1 ==> p.insts[k].opcode == Ctl(NOP) || Scalar(p.insts[k])
  }
}
