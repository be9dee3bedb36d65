/**
 An executable meaning for the part of SPIR-V the scalar shaders use, written
 from the opcode numbers of the SPIR-V and GLSL.std.450 specifications. The
 machine is typed and strict: it is stuck on an undefined id, on an operand of
 the wrong type and on any other opcode.
 */
module SpirvMachine {
  import opened Common
  import opened Spirv
  import opened ShaderIr

  datatype Ty = Void | Bool | F32 | I32 | U32 | Vec4F32 | OtherTy | Ptr(to: Ty)

  datatype Val =
    | VF(f: u32) | VI(i: u32) | VU(u: u32) | VB(b: bool)
    | V4(x: u32, y: u32, z: u32, w: u32) | VOther | VGlsl

  function TypeOf(v: Val): Ty {
    match v
    case VF(_) => F32
    case VI(_) => I32
    case VU(_) => U32
    case VB(_) => Bool
    case V4(_, _, _, _) => Vec4F32
    case VOther => OtherTy
    case VGlsl => OtherTy
  }

  /** The 32-bit pattern of a scalar. */
  function BitsOf(v: Val): Option<u32> {
    match v
    case VF(f) => Some(f)
    case VI(i) => Some(i)
    case VU(u) => Some(u)
    case _ => None
  }

  function Scalar32(ty: Ty, bits: u32): Option<Val> {
    match ty
    case F32 => Some(VF(bits))
    case I32 => Some(VI(bits))
    case U32 => Some(VU(bits))
    case _ => None
  }

  /**
   types and vals hold what the executed instructions defined; vars is the
   memory behind the variables and declared the variables declared so far.
   */
  datatype Machine = Machine(types: map<nat, Ty>, vals: map<nat, Val>, vars: map<nat, Val>, declared: set<nat>)

  /** A core instruction on values, by its opcode number. */
  function Apply(fp: FloatOps, op: nat, ty: Ty, vs: seq<Val>): Option<Val> {
    if |vs| == 2 && ty == F32 && vs[0].VF? && vs[1].VF? then
      var a, b := vs[0].f, vs[1].f;
      if op == 129 then Some(VF(fp.add(a, b)))
      else if op == 131 then Some(VF(fp.sub(a, b)))
      else if op == 133 then Some(VF(fp.mul(a, b)))
      else if op == 136 then Some(VF(fp.div(a, b)))
      else None
    else if |vs| == 2 && ty == I32 && vs[0].VI? && vs[1].VI? then
      var a, b := vs[0].i, vs[1].i;
      if op == 128 then Some(VI(Add32(a, b)))
      else if op == 130 then Some(VI(Sub32(a, b)))
      else if op == 132 then Some(VI(Mul32(a, b)))
      else None
    else if |vs| == 1 then
      if op == 127 && ty == F32 && vs[0].VF? then Some(VF(fp.neg(vs[0].f)))
      else if op == 126 && ty == I32 && vs[0].VI? then Some(VI(Neg32(vs[0].i)))
      else if op == 110 && ty == I32 && vs[0].VF? then Some(VI(fp.toSigned(vs[0].f)))
      else if op == 111 && ty == F32 && vs[0].VI? then Some(VF(fp.fromSigned(vs[0].i)))
      else if op == 124 && BitsOf(vs[0]).Some? then Scalar32(ty, BitsOf(vs[0]).value)
      else None
    else None
  }

  /** An instruction of the GLSL.std.450 extended set, by its number. */
  function ApplyExt(fp: FloatOps, n: nat, ty: Ty, vs: seq<Val>): Option<Val> {
    if |vs| == 1 && ty == I32 && vs[0].VI? then
      if n == 5 then Some(VI(Abs32(vs[0].i))) else None
    else if |vs| == 1 && ty == F32 && vs[0].VF? then
      var a := vs[0].f;
      if n == 4 then Some(VF(fp.abs(a)))
      else if n == 8 then Some(VF(fp.floor(a)))
      else if n == 9 then Some(VF(fp.ceil(a)))
      else if n == 13 then Some(VF(fp.sin(a)))
      else if n == 14 then Some(VF(fp.cos(a)))
      else if n == 15 then Some(VF(fp.tan(a)))
      else if n == 22 then Some(VF(fp.asinh(a)))
      else if n == 24 then Some(VF(fp.atanh(a)))
      else if n == 29 then Some(VF(fp.exp2(a)))
      else if n == 30 then Some(VF(fp.log2(a)))
      else if n == 31 then Some(VF(fp.sqrt(a)))
      else if n == 32 then Some(VF(fp.invSqrt(a)))
      else None
    else if |vs| == 2 && ty == F32 && vs[0].VF? && vs[1].VF? then
      if n == 37 then Some(VF(fp.min(vs[0].f, vs[1].f)))
      else if n == 40 then Some(VF(fp.max(vs[0].f, vs[1].f)))
      else None
    else if |vs| == 3 && ty == F32 && vs[0].VF? && vs[1].VF? && vs[2].VF? && n == 43 then
      Some(VF(fp.clamp(vs[0].f, vs[1].f, vs[2].f)))
    else None
  }

  /** The values of a list of operand ids. */
  function Operands(m: Machine, ids: seq<nat>): Option<seq<Val>> {
    if ids == [] then Some([])
    else if ids[0] !in m.vals then None
    else
      match Operands(m, ids[1..])
      case None => None
      case Some(rest) => Some([m.vals[ids[0]]] + rest)
  }

  /** The type a type declaration introduces, given the types declared before it. */
  function DeclaredType(types: map<nat, Ty>, i: Inst): Option<Ty> {
    var a := i.args;
    if i.op == 19 && |a| == 1 then Some(Void)
    else if i.op == 20 && |a| == 1 then Some(Bool)
    else if i.op == 22 && |a| == 2 && a[1] == 32 then Some(F32)
    else if i.op == 21 && |a| == 3 && a[1] == 32 then Some(if a[2] == 1 then I32 else U32)
    else if i.op == 23 && |a| == 3 && a[1] in types then
      Some(if types[a[1]] == F32 && a[2] == 4 then Vec4F32 else OtherTy)
    else if (i.op == 25 || i.op == 27 || i.op == 29 || i.op == 30 || i.op == 33) && |a| > 1 && a[1] in types then Some(OtherTy)
    else if i.op == 32 && |a| == 3 && a[2] in types then Some(Ptr(types[a[2]]))
    else None
  }

  /** Declarations: imports, types, constants and variables. */
  function Declare(m: Machine, i: Inst): Option<Machine> {
    var a := i.args;
    if 19 <= i.op <= 33 then
      match DeclaredType(m.types, i)
      case None => None
      case Some(ty) => if |a| > 0 then Some(m.(types := m.types[a[0] := ty])) else None
    else if i.op == 11 && |a| > 0 then
      if a[1..] == StringWords("GLSL.std.450") then Some(m.(vals := m.vals[a[0] := VGlsl])) else None
    else if i.op == 43 && |a| == 3 && a[0] in m.types && a[2] < 0x1_0000_0000 then
      match Scalar32(m.types[a[0]], a[2])
      case None => None
      case Some(v) => Some(m.(vals := m.vals[a[1] := v]))
    else if (i.op == 41 || i.op == 42) && |a| == 2 && a[0] in m.types && m.types[a[0]] == Bool then
      Some(m.(vals := m.vals[a[1] := VB(i.op == 41)]))
    else if i.op == 59 && |a| == 3 && a[0] in m.types && a[1] in m.vars && m.types[a[0]] == Ptr(TypeOf(m.vars[a[1]])) then
      Some(m.(declared := m.declared + {a[1]}))
    else None
  }

  /** One instruction; None when the machine is stuck. */
  function Step(fp: FloatOps, m: Machine, i: Inst): Option<Machine> {
    var a := i.args;
    if 14 <= i.op <= 17 || i.op == 71 || i.op == 248 then Some(m)
    else if i.op == 54 then
      if |a| == 4 && a[0] in m.types && m.types[a[0]] == Void && a[3] in m.types then Some(m) else None
    else if i.op == 61 then
      if |a| == 3 && a[0] in m.types && a[2] in m.declared && a[2] in m.vars && TypeOf(m.vars[a[2]]) == m.types[a[0]] then
        Some(m.(vals := m.vals[a[1] := m.vars[a[2]]]))
      else None
    else if i.op == 62 then
      if |a| == 2 && a[0] in m.declared && a[0] in m.vars && a[1] in m.vals && TypeOf(m.vars[a[0]]) == TypeOf(m.vals[a[1]]) then
        Some(m.(vars := m.vars[a[0] := m.vals[a[1]]]))
      else None
    else if i.op == 12 then
      if |a| >= 4 && a[0] in m.types && a[2] in m.vals && m.vals[a[2]] == VGlsl && Operands(m, a[4..]).Some? then
        match ApplyExt(fp, a[3], m.types[a[0]], Operands(m, a[4..]).value)
        case None => None
        case Some(v) => Some(m.(vals := m.vals[a[1] := v]))
      else None
    else if 100 <= i.op <= 140 then
      if |a| >= 2 && a[0] in m.types && Operands(m, a[2..]).Some? then
        match Apply(fp, i.op, m.types[a[0]], Operands(m, a[2..]).value)
        case None => None
        case Some(v) => Some(m.(vals := m.vals[a[1] := v]))
      else None
    else Declare(m, i)
  }

  function Exec(fp: FloatOps, m: Machine, code: seq<Inst>): Option<Machine>
    decreases |code|
  {
    if code == [] then Some(m)
    else
      match Step(fp, m, code[0])
      case None => None
      case Some(n) => Exec(fp, n, code[1..])
  }

  /** Executes a module from its first instruction up to OpReturn. */
  function Run(fp: FloatOps, m: Machine, code: seq<Inst>): Option<Machine>
    decreases |code|
  {
    if code == [] then None
    else if code[0] == Inst(253, []) then Some(m)
    else
      match Step(fp, m, code[0])
      case None => None
      case Some(n) => Run(fp, n, code[1..])
  }

  function Start(vars: map<nat, Val>): Machine {
    Machine(map[], map[], vars, {})
  }

  lemma {:induction false} ExecAppend(fp: FloatOps, m: Machine, a: seq<Inst>, b: seq<Inst>)
    ensures Exec(fp, m, a + b) ==
            (match Exec(fp, m, a) case None => None case Some(n) => Exec(fp, n, b))
    decreases |a|
  {
    if a == [] {
      assert a + b == b;
    } else {
      assert (a + b)[1..] == a[1..] + b;
      if Step(fp, m, a[0]).Some? {
        ExecAppend(fp, Step(fp, m, a[0]).value, a[1..], b);
      }
    }
  }

  /** A stretch that executes without returning runs as a prefix of the module. */
  lemma {:induction false} RunAfterExec(fp: FloatOps, m: Machine, a: seq<Inst>, b: seq<Inst>)
    requires Exec(fp, m, a).Some?
    ensures Run(fp, m, a + b) == Run(fp, Exec(fp, m, a).value, b)
    decreases |a|
  {
    if a == [] {
      assert a + b == b;
    } else {
      assert (a + b)[1..] == a[1..] + b;
      RunAfterExec(fp, Step(fp, m, a[0]).value, a[1..], b);
    }
  }
}
