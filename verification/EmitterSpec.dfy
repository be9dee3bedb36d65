/**
 What the SPIR-V emitter emits, as functions: the module prologue, the variables
 standing for registers, the lowering of each instruction and the labels and
 branches of the control-flow pass.
 */
module EmitterSpec {
  import opened Common
  import opened Spirv
  import opened ShaderIr

  // ── Ids of one module ──────────────────────────────────────────────────

  /** The ids handed out before the types; tex is whatever the emitter holds for the texture variable. */
  datatype Ids = Ids(io: seq<nat>, tex: nat, base: nat) {
    function Glsl(): nat { 1 }
    function Func(): nat { 2 }
    function CbufArray(): nat { 3 + |io| }
    function CbufStruct(): nat { 4 + |io| }
    function CbufVar(): nat { 5 + |io| }
  }

  function IoIds(p: Program): seq<nat> {
    if p.IsVertex() then [3, 4, 5, 6] else if p.IsFragment() then [3, 4] else []
  }

  /** stale is the texture variable left over from the previous module, 0 at first. */
  function IdsOf(p: Program, stale: nat): Ids {
    var next := 6 + |IoIds(p)|;
    Ids(IoIds(p), if p.usesTextures then next else stale, if p.usesTextures then next + 1 else next)
  }

  /** The environment of the function body: types, constants and global variables. */
  datatype Env = Env(ids: Ids) {
    function Void(): nat { ids.base }
    function Bool(): nat { ids.base + 1 }
    function F32(): nat { ids.base + 2 }
    function I32(): nat { ids.base + 3 }
    function U32(): nat { ids.base + 4 }
    function Vec2F32(): nat { ids.base + 5 }
    function Vec4F32(): nat { ids.base + 7 }
    function F32FnPtr(): nat { ids.base + 14 }
    function F32UniformPtr(): nat { ids.base + 17 }
    function ImagePtr(): nat { ids.base + 19 }
    function Zero(): nat { ids.base + 23 }
    function One(): nat { ids.base + 24 }
    function True(): nat { ids.base + 25 }
    /** The first id after the entry label. */
    function Body(): nat { ids.base + 29 }
  }

  // ── Prologue ───────────────────────────────────────────────────────────

  function Decorate(target: nat, decoration: nat, value: nat): Inst {
    Inst(71, [target, decoration, value])
  }

  /** Capabilities, imports, memory model, entry point and execution mode. */
  function ModuleHead(p: Program, ids: Ids): seq<Inst> {
    [Inst(17, [1])]
    + (if p.usesTextures then [Inst(17, [33])] else [])
    + [Inst(11, [ids.Glsl()] + StringWords("GLSL.std.450"))]
    + [Inst(14, [0, 1])]
    + [Inst(15, [if p.IsFragment() then 4 else 0, ids.Func()] + StringWords("main") + ids.io)]
    + (if p.IsFragment() then [Inst(16, [ids.Func(), 7])] else [])
  }

  function IoDecorations(p: Program, io: seq<nat>): seq<Inst>
    requires io == IoIds(p)
  {
    if p.IsVertex() then
      [Decorate(io[0], 30, 0), Decorate(io[1], 30, 1), Decorate(io[2], 11, 0), Decorate(io[3], 30, 0)]
    else if p.IsFragment() then [Decorate(io[0], 30, 0), Decorate(io[1], 30, 0)]
    else []
  }

  function Decorations(p: Program, ids: Ids): seq<Inst>
    requires ids.io == IoIds(p)
  {
    IoDecorations(p, ids.io)
    + [Decorate(ids.CbufArray(), 6, 4), Decorate(ids.CbufVar(), 34, 0), Decorate(ids.CbufVar(), 33, 0)]
    + (if p.usesTextures then [Decorate(ids.tex, 34, 0), Decorate(ids.tex, 33, 0)] else [])
  }

  function ScalarTypes(b: nat): seq<Inst> {
    [Inst(19, [b]), Inst(20, [b + 1]), Inst(22, [b + 2, 32]), Inst(21, [b + 3, 32, 1]), Inst(21, [b + 4, 32, 0])]
  }

  function VectorTypes(b: nat): seq<Inst> {
    [Inst(23, [b + 5, b + 2, 2]), Inst(23, [b + 6, b + 2, 3]), Inst(23, [b + 7, b + 2, 4]),
     Inst(23, [b + 8, b + 3, 2]), Inst(23, [b + 9, b + 3, 3]), Inst(23, [b + 10, b + 3, 4]),
     Inst(23, [b + 11, b + 4, 2]), Inst(23, [b + 12, b + 4, 3]), Inst(23, [b + 13, b + 4, 4])]
  }

  function PointerTypes(b: nat): seq<Inst> {
    [Inst(32, [b + 14, 7, b + 2]), Inst(32, [b + 15, 1, b + 7]), Inst(32, [b + 16, 3, b + 7]),
     Inst(32, [b + 17, 2, b + 2]),
     Inst(25, [b + 18, b + 2, 1, 0, 0, 0, 1, 0]), Inst(32, [b + 19, 0, b + 18]), Inst(27, [b + 20, b + 18])]
  }

  /** The constant buffer: its ids were handed out before, for the decorations. */
  function CbufTypes(b: nat, cbufArray: nat): seq<Inst> {
    [Inst(29, [cbufArray, b + 2]), Inst(30, [cbufArray + 1, cbufArray])]
  }

  function LastTypes(b: nat, cbufStruct: nat): seq<Inst> {
    [Inst(32, [b + 21, 2, cbufStruct]), Inst(32, [b + 22, 7, b + 1])]
  }

  function BaseTypes(ids: Ids): seq<Inst> {
    ScalarTypes(ids.base) + VectorTypes(ids.base) + PointerTypes(ids.base)
    + CbufTypes(ids.base, ids.CbufArray()) + LastTypes(ids.base, ids.CbufStruct())
  }

  function Constants(b: nat): seq<Inst> {
    [Inst(43, [b + 2, b + 23, 0]), Inst(43, [b + 2, b + 24, 0x3F80_0000]),
     Inst(41, [b + 1, b + 25]), Inst(42, [b + 1, b + 26])]
  }

  function IoVariables(p: Program, ids: Ids): seq<Inst>
    requires ids.io == IoIds(p)
  {
    var b := ids.base;
    if p.IsVertex() then
      [Inst(59, [b + 15, ids.io[0], 1]), Inst(59, [b + 15, ids.io[1], 1]),
       Inst(59, [b + 16, ids.io[2], 3]), Inst(59, [b + 16, ids.io[3], 3])]
    else if p.IsFragment() then [Inst(59, [b + 15, ids.io[0], 1]), Inst(59, [b + 16, ids.io[1], 3])]
    else []
  }

  function GlobalVariables(p: Program, ids: Ids): seq<Inst>
    requires ids.io == IoIds(p)
  {
    IoVariables(p, ids)
    + [Inst(59, [ids.base + 21, ids.CbufVar(), 2])]
    + (if p.usesTextures then [Inst(59, [ids.base + 19, ids.tex, 0])] else [])
  }

  /** The function type, the function and its entry label. */
  function FunctionStart(ids: Ids): seq<Inst> {
    var b := ids.base;
    [Inst(33, [b + 27, b]), Inst(54, [b, ids.Func(), 0, b + 27]), Inst(248, [b + 28])]
  }

  function Globals(p: Program, ids: Ids): seq<Inst>
    requires ids.io == IoIds(p)
  {
    ModuleHead(p, ids) + Decorations(p, ids) + BaseTypes(ids) + Constants(ids.base) + GlobalVariables(p, ids)
  }

  // ── Register variables ─────────────────────────────────────────────────

  datatype Gprs = Gprs(vars: map<nat, nat>, next: nat, code: seq<Inst>)

  function AddGpr(ptr: nat, g: Gprs, o: Operand): Gprs {
    if o.kind.KGpr? && o.Reg() !in g.vars then
      Gprs(g.vars[o.Reg() := g.next], g.next + 1, g.code + [Inst(59, [ptr, g.next, 7])])
    else g
  }

  function AddSources(ptr: nat, g: Gprs, i: IrInst, n: nat): Gprs
    requires n <= 3
  {
    if n == 0 then g else AddGpr(ptr, AddSources(ptr, g, i, n - 1), i.Src(n - 1))
  }

  function AddInst(ptr: nat, g: Gprs, i: IrInst): Gprs {
    AddSources(ptr, AddGpr(ptr, g, i.dest), i, i.srcCount)
  }

  /** One function variable for each register named by an operand, in order of first use. */
  function BuildGprs(ptr: nat, insts: seq<IrInst>, next: nat): Gprs {
    if insts == [] then Gprs(map[], next, [])
    else AddInst(ptr, BuildGprs(ptr, insts[..|insts| - 1], next), insts[|insts| - 1])
  }

  // ── Lowering of one instruction ────────────────────────────────────────

  datatype TyRef = RBool | RF32 | RI32 | RU32 | RVec2 | RVec4 | RUniformPtr | RImagePtr

  /** An operand of a lowered instruction: a temporary of this lowering, a global, or a literal. */
  datatype Ref = T(k: nat) | RZero | ROne | RGlsl | RCbuf | RTex | Lit(n: nat)

  datatype Micro = Micro(op: nat, ty: TyRef, args: seq<Ref>)

  /**
   How an opcode is lowered: with at least minSrc sources, load the first loads
   of them into temporaries 0, 1, ...; run body, each step into the next
   temporary; store val to the destination register, or predicate.
   */
  datatype Recipe = Recipe(minSrc: nat, loads: nat, body: seq<Micro>, val: Ref, toPredicate: bool)

  /** A step is an operation with a result id, or a constant. */
  predicate ValueStep(m: Micro) {
    (m.op == 12 || m.op == 43 || m.op == 61 || m.op == 65 || m.op == 80 || m.op == 88 || 100 <= m.op <= 180) && |m.args| <= 6
  }

  predicate ValueSteps(body: seq<Micro>) {
    body == [] || (ValueStep(body[0]) && ValueSteps(body[1..]))
  }

  predicate Shaped(r: Recipe) {
    r.loads <= 3 && ValueSteps(r.body)
  }

  /** No constant is declared among the steps. */
  predicate NoConstants(body: seq<Micro>) {
    body == [] || (body[0].op != 43 && NoConstants(body[1..]))
  }

  /** The recipe declares nothing inside the function body. */
  predicate Local(r: Recipe) {
    Shaped(r) && !r.toPredicate && NoConstants(r.body)
  }

  lemma {:induction false} AllSteps(body: seq<Micro>)
    requires forall k :: 0 <= k < |body| ==> ValueStep(body[k])
    ensures ValueSteps(body)
    ensures (forall k :: 0 <= k < |body| ==> body[k].op != 43) ==> NoConstants(body)
  {
    if body != [] {
      AllSteps(body[1..]);
    }
  }

  function Gpr(minSrc: nat, loads: nat, body: seq<Micro>, val: Ref): (r: Recipe)
    requires loads <= 3 && forall k :: 0 <= k < |body| ==> ValueStep(body[k]) && body[k].op != 43
    ensures Local(r)
  {
    AllSteps(body);
    Recipe(minSrc, loads, body, val, false)
  }

  /** A recipe that declares constants of its own. */
  function WithConstants(minSrc: nat, loads: nat, body: seq<Micro>, val: Ref): (r: Recipe)
    requires loads <= 3 && forall k :: 0 <= k < |body| ==> ValueStep(body[k])
    ensures Shaped(r)
  {
    AllSteps(body);
    Recipe(minSrc, loads, body, val, false)
  }

  function Pred(body: seq<Micro>, val: Ref): (r: Recipe)
    requires forall k :: 0 <= k < |body| ==> ValueStep(body[k])
    ensures Shaped(r)
  {
    AllSteps(body);
    Recipe(2, 2, body, val, true)
  }

  function Bc(ty: TyRef, k: nat): Micro { Micro(124, ty, [T(k)]) }
  function Ext(n: nat, ty: TyRef, args: seq<Ref>): Micro { Micro(12, ty, [RGlsl, Lit(n)] + args) }

  /** Opcodes of the core arithmetic and conversion instructions. */
  type Arith = op: nat | 100 <= op <= 180 witness 129

  function Pass(minSrc: nat): (r: Recipe)
    ensures Local(r)
  { Gpr(minSrc, 1, [], T(0)) }

  function Float2(op: Arith): (r: Recipe)
    ensures Local(r)
  { Gpr(2, 2, [Micro(op, RF32, [T(0), T(1)])], T(2)) }

  function FloatExt2(n: nat): (r: Recipe)
    ensures Local(r)
  { Gpr(2, 2, [Ext(n, RF32, [T(0), T(1)])], T(2)) }

  function FloatExt1(n: nat): (r: Recipe)
    ensures Local(r)
  { Gpr(1, 1, [Ext(n, RF32, [T(0)])], T(1)) }

  function MulAdd(): (r: Recipe)
    ensures Local(r)
  { Gpr(3, 3, [Micro(133, RF32, [T(0), T(1)]), Micro(129, RF32, [T(3), T(2)])], T(4)) }

  function FloatNeg(): (r: Recipe)
    ensures Local(r)
  { Gpr(1, 1, [Micro(127, RF32, [T(0)])], T(1)) }

  function Clamp(): (r: Recipe)
    ensures Local(r)
  { Gpr(1, 1, [Ext(43, RF32, [T(0), RZero, ROne])], T(1)) }

  function Reciprocal(): (r: Recipe)
    ensures Local(r)
  { Gpr(1, 1, [Micro(136, RF32, [ROne, T(0)])], T(1)) }

  function Int2(op: Arith): (r: Recipe)
    ensures Local(r)
  { Gpr(2, 2, [Bc(RI32, 0), Bc(RI32, 1), Micro(op, RI32, [T(2), T(3)]), Bc(RF32, 4)], T(5)) }

  function Int3(op: Arith): (r: Recipe)
    ensures Local(r)
  {
    Gpr(3, 3, [Bc(RI32, 0), Bc(RI32, 1), Bc(RI32, 2), Micro(op, RI32, [T(3), T(4)]), Micro(128, RI32, [T(6), T(5)]),
               Bc(RF32, 7)], T(8))
  }

  function IntNeg(): (r: Recipe)
    ensures Local(r)
  { Gpr(1, 1, [Bc(RI32, 0), Micro(126, RI32, [T(1)]), Bc(RF32, 2)], T(3)) }

  function IntAbs(): (r: Recipe)
    ensures Local(r)
  { Gpr(1, 1, [Bc(RI32, 0), Ext(5, RI32, [T(1)]), Bc(RF32, 2)], T(3)) }

  function ToInt(): (r: Recipe)
    ensures Local(r)
  { Gpr(1, 1, [Micro(110, RI32, [T(0)]), Bc(RF32, 1)], T(2)) }

  function ToFloat(): (r: Recipe)
    ensures Local(r)
  { Gpr(1, 1, [Bc(RI32, 0), Micro(111, RF32, [T(1)])], T(2)) }

  function Shift(op: Arith): (r: Recipe)
    ensures Local(r)
  { Gpr(2, 2, [Bc(RI32, 0), Bc(RU32, 1), Micro(op, RI32, [T(2), T(3)]), Bc(RF32, 4)], T(5)) }

  function BitExtract(): (r: Recipe)
    ensures Local(r)
  { Gpr(3, 3, [Bc(RU32, 0), Bc(RU32, 1), Bc(RU32, 2), Micro(177, RU32, [T(3), T(4), T(5)]), Bc(RF32, 6)], T(7)) }

  function BitInsert(): (r: Recipe)
    ensures Shaped(r)
  {
    WithConstants(3, 3, [Bc(RU32, 0), Bc(RU32, 1), Bc(RU32, 2), Micro(43, RU32, [Lit(32)]),
                         Micro(175, RU32, [T(3), T(4), T(5), T(6)]), Bc(RF32, 7)], T(8))
  }

  function IntMax(): (r: Recipe)
    ensures Local(r)
  {
    Gpr(2, 2, [Bc(RI32, 0), Bc(RI32, 1), Micro(142, RBool, [T(2), T(3)]),
               Micro(169, RI32, [T(4), T(2), T(3)]), Bc(RF32, 5)], T(6))
  }

  function FloatSet(): (r: Recipe)
    ensures Local(r)
  { Gpr(2, 2, [Micro(156, RBool, [T(0), T(1)]), Micro(169, RF32, [T(2), ROne, RZero])], T(3)) }

  function Address(): (r: Recipe)
    ensures Shaped(r)
  {
    WithConstants(2, 2, [Bc(RU32, 0), Bc(RU32, 1), Micro(43, RU32, [Lit(2)]), Micro(165, RU32, [T(3), T(4)]),
                         Micro(128, RU32, [T(2), T(5)]), Bc(RF32, 6)], T(7))
  }

  function ConstantLoad(): (r: Recipe)
    ensures Local(r)
  { Gpr(1, 1, [Bc(RU32, 0), Micro(65, RUniformPtr, [RCbuf, RZero, T(1)]), Micro(61, RF32, [T(2)])], T(3)) }

  /** ISETP and FSETP always compare for equality. */
  function IntCompare(): (r: Recipe)
    ensures Shaped(r)
  { Pred([Bc(RI32, 0), Bc(RI32, 1), Micro(143, RBool, [T(2), T(3)])], T(4)) }

  function FloatCompare(): (r: Recipe)
    ensures Shaped(r)
  { Pred([Micro(156, RBool, [T(0), T(1)])], T(2)) }

  /** Without a texture variable only the coordinate is loaded. */
  function Sample(tex: nat): (r: Recipe)
    ensures Local(r)
  {
    if tex == 0 then Gpr(2, 1, [], RTex)
    else Gpr(2, 1, [Micro(80, RVec2, [T(0), T(0)]), Micro(61, RImagePtr, [RTex]),
                    Micro(88, RVec4, [T(2), T(1), RZero])], T(3))
  }

  function MufuRecipe(op: nat): (r: Recipe)
    ensures Local(r)
  {
    if op == MUFU_SIN then FloatExt1(13)
    else if op == MUFU_COS then FloatExt1(14)
    else if op == MUFU_EX2 then FloatExt1(22)
    else if op == MUFU_LG2 then FloatExt1(24)
    else if op == MUFU_RCP then Reciprocal()
    else if op == MUFU_RSQ then FloatExt1(32)
    else if op == MUFU_SQRT then FloatExt1(31)
    else if op == MUFU_FLOOR then FloatExt1(8)
    else if op == MUFU_CEIL then FloatExt1(9)
    else if op == MUFU_TAN then FloatExt1(15)
    else Pass(1)
  }

  function FloatRecipe(op: FloatOp, mufu: nat, toGpr: bool): (r: Option<Recipe>)
    ensures r.Some? ==> Local(r.value)
  {
    match op
    case FMAD => Some(MulAdd())
    case FADD => Some(Float2(129))
    case FMUL => Some(Float2(133))
    case FMAX => Some(FloatExt2(40))
    case FMIN => Some(FloatExt2(37))
    case FSAT => Some(Clamp())
    case FNEG => Some(FloatNeg())
    case FABS => Some(FloatExt1(4))
    case FRCP => Some(Reciprocal())
    case FRSQ => Some(FloatExt1(32))
    case FSQRT => Some(FloatExt1(31))
    case FEX2 => Some(FloatExt1(22))
    case FLG2 => Some(FloatExt1(24))
    case MUFU => Some(MufuRecipe(mufu))
    case FSIN | FCOS => Fallback(toGpr)
  }

  function IntRecipe(op: IntOp): (r: Recipe)
    ensures Shaped(r)
    ensures !op.ISETP? && !op.LEA? ==> Local(r)
  {
    match op
    case IADD => Int2(128)
    case ISUB => Int2(130)
    case IMUL => Int2(132)
    case IMAD => Int3(132)
    case IADD3 => Int3(128)
    case INEG => IntNeg()
    case IABS => IntAbs()
    case I2F => ToFloat()
    case I2I | POPC | FLO => Pass(1)
    case SHL => Shift(165)
    case SHR => Shift(167)
    case IMNMX => IntMax()
    case LEA => Address()
    case ISETP => IntCompare()
  }

  function SpecialRecipe(op: SpecialOp, toGpr: bool): (r: Option<Recipe>)
    ensures r.Some? ==> Shaped(r.value)
    ensures r.Some? && !op.BFI? ==> Local(r.value)
  {
    match op
    case S2R => Some(Gpr(0, 0, [], RZero))
    case PRMT => Some(Pass(2))
    case BFE => Some(BitExtract())
    case BFI => Some(BitInsert())
    case _ => Fallback(toGpr)
  }

  /** Opcodes without a case of their own copy their first source. */
  function Fallback(toGpr: bool): (r: Option<Recipe>)
    ensures r.Some? ==> Local(r.value)
  {
    if toGpr then Some(Pass(1)) else None
  }

  /** Opcodes lowered with types, constants or variables declared inside the function. */
  predicate Declaring(op: Opcode) {
    op == Int(ISETP) || op == Int(LEA) || op == Cmp(FSETP) || op == Spc(BFI)
  }

  /** The recipe of an instruction outside control flow; None when nothing is emitted. */
  function RecipeOf(i: IrInst, tex: nat): (r: Option<Recipe>)
    ensures r.Some? ==> Shaped(r.value)
    ensures r.Some? && !Declaring(i.opcode) ==> Local(r.value)
  {
    var toGpr := i.dest.kind.KGpr?;
    match i.opcode
    case Ctl(c) => if c.CONT? || c.BREAK? then Fallback(toGpr) else None
    case Flt(f) => FloatRecipe(f, i.src0.mufu, toGpr)
    case Int(n) => Some(IntRecipe(n))
    case Cvt(v) => if v.F2I? then Some(ToInt()) else if v.F2F? then Some(Pass(1)) else Fallback(toGpr)
    case Cmp(c) => if c.FSETP? then Some(FloatCompare()) else Some(FloatSet())
    case Load(l) => if l.LD? then Some(Pass(0)) else if l.LDC? then Some(ConstantLoad()) else Fallback(toGpr)
    case Store(s) => if s.ST? then Some(Pass(0)) else Fallback(toGpr)
    case Tex(t) => if t.TEX? then Some(Sample(tex)) else Fallback(toGpr)
    case Spc(s) => SpecialRecipe(s, toGpr)
  }

  function TyId(env: Env, t: TyRef): nat {
    match t
    case RBool => env.Bool()
    case RF32 => env.F32()
    case RI32 => env.I32()
    case RU32 => env.U32()
    case RVec2 => env.Vec2F32()
    case RVec4 => env.Vec4F32()
    case RUniformPtr => env.F32UniformPtr()
    case RImagePtr => env.ImagePtr()
  }

  function RefId(env: Env, base: nat, r: Ref): nat {
    match r
    case T(k) => base + k
    case RZero => env.Zero()
    case ROne => env.One()
    case RGlsl => env.ids.Glsl()
    case RCbuf => env.ids.CbufVar()
    case RTex => env.ids.tex
    case Lit(n) => n
  }

  function RefIds(env: Env, base: nat, rs: seq<Ref>): (ids: seq<nat>)
    ensures |ids| == |rs| && forall k :: 0 <= k < |rs| ==> ids[k] == RefId(env, base, rs[k])
  {
    if rs == [] then [] else [RefId(env, base, rs[0])] + RefIds(env, base, rs[1..])
  }

  /** The instruction for one step of a recipe, into the temporary numbered k. */
  function MicroInst(env: Env, base: nat, k: nat, m: Micro): Inst {
    Inst(m.op, [TyId(env, m.ty), base + k] + RefIds(env, base, m.args))
  }

  function BodyCode(env: Env, base: nat, k: nat, body: seq<Micro>): seq<Inst>
    decreases |body|
  {
    if body == [] then [] else [MicroInst(env, base, k, body[0])] + BodyCode(env, base, k + 1, body[1..])
  }

  /** How many of the first n sources have a variable. */
  function Mapped(vars: map<nat, nat>, i: IrInst, n: nat): (c: nat)
    requires n <= 3
    ensures c <= n
  {
    if n == 0 then 0 else Mapped(vars, i, n - 1) + (if i.Src(n - 1).Reg() in vars then 1 else 0)
  }

  /** Loads of the first n sources; a source without a variable is left out. */
  function LoadCode(env: Env, vars: map<nat, nat>, i: IrInst, n: nat, next: nat): seq<Inst>
    requires n <= 3
  {
    if n == 0 then []
    else
      LoadCode(env, vars, i, n - 1, next)
      + (if i.Src(n - 1).Reg() in vars
         then [Inst(61, [env.F32(), next + Mapped(vars, i, n - 1), vars[i.Src(n - 1).Reg()]])] else [])
  }

  /** What one instruction adds: code, ids up to next, and the predicate variables known afterwards. */
  datatype Out = Out(code: seq<Inst>, next: nat, preds: map<nat, nat>)

  /** The store that ends a recipe. */
  function StoreOut(env: Env, vars: map<nat, nat>, preds: map<nat, nat>, i: IrInst, toPredicate: bool, value: nat, next: nat): Out {
    var r := i.dest.Reg();
    if !toPredicate then Out(if r in vars then [Inst(62, [vars[r], value])] else [], next, preds)
    else if r in preds then Out([Inst(62, [preds[r], value])], next, preds)
    else
      Out([Inst(32, [next, 7, env.Bool()]), Inst(59, [next, next + 1, 7]), Inst(62, [next + 1, value])],
          next + 2, preds[r := next + 1])
  }

  function RecipeOut(env: Env, vars: map<nat, nat>, preds: map<nat, nat>, i: IrInst, r: Recipe, next: nat): Out
    requires r.loads <= 3
  {
    var loads := LoadCode(env, vars, i, r.loads, next);
    var mapped := Mapped(vars, i, r.loads);
    if i.srcCount < r.minSrc then Out([], next, preds)
    else if mapped < r.loads || r.val == RTex then Out(loads, next + mapped, preds)
    else
      var body := BodyCode(env, next, r.loads, r.body);
      var end := next + r.loads + |r.body|;
      var store := StoreOut(env, vars, preds, i, r.toPredicate, RefId(env, next, r.val), end);
      Out(loads + body + store.code, store.next, store.preds)
  }

  function InstOut(env: Env, vars: map<nat, nat>, preds: map<nat, nat>, i: IrInst, next: nat): Out {
    if i.opcode == Ctl(KIL) then Out([Inst(252, [])], next, preds)
    else
      match RecipeOf(i, env.ids.tex)
      case None => Out([], next, preds)
      case Some(r) => RecipeOut(env, vars, preds, i, r, next)
  }

  // ── Control-flow analysis ──────────────────────────────────────────────

  datatype BlockKind = Normal | Selection | Loop

  datatype Pair = Pair(ssyPc: u32, syncPc: u32, braTarget: u32, kind: BlockKind)

  function LabelPc(o: Operand): u32 { (o.bits * 8) % 0x1_0000_0000 }
  function After(pc: u32): u32 { (pc + 8) % 0x1_0000_0000 }

  /** The first branch at or after j, unless the SYNC of the pair comes first. */
  function FindBranch(insts: seq<IrInst>, j: nat, ssyPc: u32, syncPc: u32): Pair
    decreases |insts| - j
  {
    if j >= |insts| then Pair(ssyPc, syncPc, 0, Normal)
    else if insts[j].opcode == Ctl(SYNC) && insts[j].pc == syncPc then Pair(ssyPc, syncPc, 0, Normal)
    else if insts[j].opcode == Ctl(BRA) then
      var target := LabelPc(insts[j].src0);
      Pair(ssyPc, syncPc, target, if target < After(ssyPc) then Loop else Selection)
    else FindBranch(insts, j + 1, ssyPc, syncPc)
  }

  function PairsUpTo(insts: seq<IrInst>, n: nat): seq<Pair>
    requires n <= |insts|
  {
    if n == 0 then []
    else
      PairsUpTo(insts, n - 1)
      + (if insts[n - 1].opcode == Ctl(SSY)
         then [FindBranch(insts, n, insts[n - 1].pc, LabelPc(insts[n - 1].src0))] else [])
  }

  function StartsOf(pairs: seq<Pair>): set<u32> {
    if pairs == [] then {}
    else
      var q := pairs[|pairs| - 1];
      StartsOf(pairs[..|pairs| - 1]) + {q.syncPc, After(q.ssyPc)} + (if q.braTarget != 0 then {q.braTarget} else {})
  }

  datatype Cfg = Cfg(pairs: seq<Pair>, starts: set<u32>)

  function CfgOf(insts: seq<IrInst>): Cfg {
    var pairs := PairsUpTo(insts, |insts|);
    Cfg(pairs, StartsOf(pairs) + (if insts == [] then {} else {insts[0].pc}))
  }

  function PairAt(pairs: seq<Pair>, pc: u32): Option<Pair> {
    if pairs == [] then None
    else if pairs[0].ssyPc == pc then Some(pairs[0])
    else PairAt(pairs[1..], pc)
  }

  // ── Structured emission ────────────────────────────────────────────────

  datatype SsyEntry = SsyEntry(ssyPc: u32, syncPc: u32, kind: BlockKind, merge: nat, cont: nat)

  /** The state of the control-flow pass. */
  datatype S = S(
    code: seq<Inst>, next: nat, labels: map<u32, nat>, stack: seq<SsyEntry>, preds: map<nat, nat>, emitted: set<u32>)

  /** The label reserved for a pc, reserving one if there is none. */
  function Reserve(s: S, pc: u32): S {
    if pc in s.labels then s else s.(labels := s.labels[pc := s.next], next := s.next + 1)
  }

  function Put(s: S, i: Inst): S { s.(code := s.code + [i]) }

  function StartBlock(cfg: Cfg, s: S, pc: u32): S {
    if pc in cfg.starts && pc !in s.emitted then
      Put(s, Inst(248, [s.next])).(next := s.next + 1, labels := s.labels[pc := s.next], emitted := s.emitted + {pc})
    else s
  }

  function PopSync(s: S, pc: u32): S {
    if s.stack != [] && s.stack[|s.stack| - 1].syncPc == pc then s.(stack := s.stack[..|s.stack| - 1]) else s
  }

  function PushSsy(cfg: Cfg, s: S, pc: u32): S {
    match PairAt(cfg.pairs, pc)
    case None => s
    case Some(q) =>
      var s1 := Reserve(s, q.syncPc);
      if q.kind.Loop? then
        var target := if q.braTarget != 0 then q.braTarget else After(pc);
        var s2 := Reserve(s1, target);
        s2.(stack := s2.stack + [SsyEntry(pc, q.syncPc, q.kind, s1.labels[q.syncPc], s2.labels[target])])
      else s1.(stack := s1.stack + [SsyEntry(pc, q.syncPc, q.kind, s1.labels[q.syncPc], 0)])
  }

  /** The merge instruction deferred from the innermost SSY, at most once. */
  function MergeCode(e: SsyEntry): seq<Inst> {
    if e.merge != 0 && e.kind.Selection? then [Inst(247, [e.merge, 0])]
    else if e.merge != 0 && e.kind.Loop? then [Inst(246, [e.merge, e.cont, 0])]
    else []
  }

  function Merge(s: S): S {
    if s.stack == [] then s
    else
      var top := |s.stack| - 1;
      s.(code := s.code + MergeCode(s.stack[top]), stack := s.stack[top := s.stack[top].(merge := 0)])
  }

  function BranchTo(s: S, pc: u32): S {
    var s1 := Reserve(s, pc);
    Put(s1, Inst(249, [s1.labels[pc]]))
  }

  function ConditionCode(env: Env, s: S, i: IrInst): (r: (S, nat)) {
    if i.guardIndex in s.preds then
      (Put(s, Inst(61, [env.Bool(), s.next, s.preds[i.guardIndex]])).(next := s.next + 1), s.next)
    else (s, env.True())
  }

  /** A guarded branch, and the label of the block it falls through to. */
  function GuardedBranch(env: Env, s: S, i: IrInst, falsePc: u32): S {
    var target := LabelPc(i.src0);
    var s1 := Reserve(Merge(s), target);
    var trueLabel := s1.labels[target];
    var s2 := Reserve(s1, falsePc);
    var falseLabel := s2.labels[falsePc];
    var (s3, cond) := ConditionCode(env, s2, i);
    var branch := if i.guardNegate then Inst(250, [cond, falseLabel, trueLabel]) else Inst(250, [cond, trueLabel, falseLabel]);
    Put(Put(s3, branch), Inst(248, [falseLabel])).(emitted := s3.emitted + {falsePc})
  }

  function Continue(cfg: Cfg, s: S): S {
    if s.stack != [] && s.stack[|s.stack| - 1].kind.Loop? then
      match PairAt(cfg.pairs, s.stack[|s.stack| - 1].ssyPc)
      case None => s
      case Some(q) => BranchTo(s, q.braTarget)
    else s
  }

  function FalsePc(insts: seq<IrInst>, n: nat): u32
    requires n < |insts|
  {
    if n + 1 < |insts| then insts[n + 1].pc else After(insts[n].pc)
  }

  /** The pass over instruction n, after its block label. */
  function Dispatch(env: Env, vars: map<nat, nat>, insts: seq<IrInst>, cfg: Cfg, n: nat, s: S): S
    requires n < |insts|
  {
    var i := insts[n];
    if i.opcode == Ctl(SYNC) then PopSync(s, i.pc)
    else if i.opcode == Ctl(SSY) then PushSsy(cfg, s, i.pc)
    else if i.opcode == Ctl(BRA) && !i.guard && i.dest.kind.KNone? then BranchTo(Merge(s), LabelPc(i.src0))
    else if i.opcode == Ctl(BRA) && i.guard then GuardedBranch(env, s, i, FalsePc(insts, n))
    else if i.opcode == Ctl(EXIT) || i.opcode == Ctl(RET) then s
    else if i.opcode == Ctl(BREAK) then
      if s.stack != [] then BranchTo(s, s.stack[|s.stack| - 1].syncPc) else s
    else if i.opcode == Ctl(CONT) then Continue(cfg, s)
    else
      var o := InstOut(env, vars, s.preds, i, s.next);
      s.(code := s.code + o.code, next := o.next, preds := o.preds)
  }

  function Flow(env: Env, vars: map<nat, nat>, insts: seq<IrInst>, cfg: Cfg, n: nat, s: S): S
    requires n <= |insts|
  {
    if n == 0 then s
    else
      var before := Flow(env, vars, insts, cfg, n - 1, s);
      Dispatch(env, vars, insts, cfg, n - 1, StartBlock(cfg, before, insts[n - 1].pc))
  }

  // ── The module ─────────────────────────────────────────────────────────

  /** The pass-through of the shader's inputs to its outputs. */
  function IoBody(p: Program, env: Env, next: nat): seq<Inst>
    requires env.ids.io == IoIds(p)
  {
    var io := env.ids.io;
    if p.IsVertex() then
      [Inst(61, [env.Vec4F32(), next, io[0]]), Inst(62, [io[2], next]),
       Inst(61, [env.Vec4F32(), next + 1, io[1]]), Inst(62, [io[3], next + 1])]
    else if p.IsFragment() then [Inst(61, [env.Vec4F32(), next, io[0]]), Inst(62, [io[1], next])]
    else []
  }

  function IoCount(p: Program): nat {
    if p.IsVertex() then 2 else if p.IsFragment() then 1 else 0
  }

  predicate HasKil(insts: seq<IrInst>) {
    exists k :: 0 <= k < |insts| && insts[k].opcode == Ctl(KIL)
  }

  function GprsOf(p: Program, stale: nat): Gprs {
    var env := Env(IdsOf(p, stale));
    BuildGprs(env.F32FnPtr(), p.insts, env.Body())
  }

  function FlowStart(p: Program, next: nat): S {
    S([], next, map[], [], map[], if p.insts == [] then {} else {p.insts[0].pc})
  }

  /** The control-flow pass over a whole program, starting with no code of its own. */
  function FlowOf(p: Program, stale: nat): S {
    var g := GprsOf(p, stale);
    Flow(Env(IdsOf(p, stale)), g.vars, p.insts, CfgOf(p.insts), |p.insts|, FlowStart(p, g.next + IoCount(p)))
  }

  function Epilogue(insts: seq<IrInst>): seq<Inst> {
    (if HasKil(insts) then [] else [Inst(253, [])]) + [Inst(56, [])]
  }

  /** All instructions of the module. */
  function Module(p: Program, stale: nat): seq<Inst> {
    var ids := IdsOf(p, stale);
    var g := GprsOf(p, stale);
    Globals(p, ids) + FunctionStart(ids) + g.code + IoBody(p, Env(ids), g.next) + FlowOf(p, stale).code + Epilogue(p.insts)
  }

  /** The bound after a module: bounds are never lowered. */
  function BoundAfter(p: Program, stale: nat, bound: nat): nat {
    var next := FlowOf(p, stale).next;
    if bound < next then next else bound
  }

  /** The words Emit returns, given the bound and texture variable left by earlier modules. */
  function ModuleWords(p: Program, stale: nat, bound: nat): seq<nat> {
    [0x0723_0203, 0x0001_0000, 0, BoundAfter(p, stale, bound), 0] + EncodeAll(Module(p, stale))
  }
}
