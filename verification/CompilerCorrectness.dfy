/**
 Compiler correctness: running the emitted module on variables that hold a
 register file ends with variables that hold the register file the intermediate
 representation computes.
 */
module CompilerCorrectness {
  import opened Common
  import opened Spirv
  import opened ShaderIr
  import opened EmitterSpec
  import opened SpirvMachine
  import opened RecipeMeaning
  import EmitterIds

  // ── Steps of a recipe ──────────────────────────────────────────────────

  /** The machine knows the types and constants the function body refers to. */
  ghost predicate EnvOk(m: Machine, env: Env) {
    && env.F32() in m.types && m.types[env.F32()] == F32
    && env.I32() in m.types && m.types[env.I32()] == I32
    && env.U32() in m.types && m.types[env.U32()] == U32
    && env.Bool() in m.types && m.types[env.Bool()] == Bool
    && env.Zero() in m.vals && m.vals[env.Zero()] == VF(0)
    && env.One() in m.vals && m.vals[env.One()] == VF(ONE_F32)
    && env.ids.Glsl() in m.vals && m.vals[env.ids.Glsl()] == VGlsl
    && env.ids.base > 2
  }

  /** The temporaries from base on hold these values. */
  ghost predicate Holds(m: Machine, base: nat, temps: seq<Val>) {
    forall k :: 0 <= k < |temps| ==> At(m, base + k, temps[k])
  }

  predicate At(m: Machine, id: nat, v: Val) {
    id in m.vals && m.vals[id] == v
  }

  /** Only temporaries at or above base differ. */
  ghost predicate SameBelow(m: Machine, n: Machine, base: nat) {
    && m.types == n.types && m.vars == n.vars && m.declared == n.declared
    && forall x :: x < base && x in m.vals ==> x in n.vals && n.vals[x] == m.vals[x]
  }

  lemma {:induction false} OperandsOf(m: Machine, env: Env, base: nat, temps: seq<Val>, rs: seq<Ref>)
    requires EnvOk(m, env) && Holds(m, base, temps) && RefVals(temps, rs).Some?
    ensures Operands(m, RefIds(env, base, rs)) == RefVals(temps, rs)
    decreases |rs|
  {
    if rs != [] {
      OperandsOf(m, env, base, temps, rs[1..]);
      assert RefIds(env, base, rs)[1..] == RefIds(env, base, rs[1..]);
    }
  }

  lemma TypesOf(m: Machine, env: Env, t: TyRef)
    requires EnvOk(m, env) && Simple(t)
    ensures TyId(env, t) in m.types && m.types[TyId(env, t)] == TyOf(t)
  {
  }

  /** One step of a recipe, as an instruction, defines the next temporary. */
  lemma StepSim(fp: FloatOps, m: Machine, env: Env, base: nat, temps: seq<Val>, step: Micro, v: Val)
    requires EnvOk(m, env) && Holds(m, base, temps) && EvalStep(fp, temps, step) == Some(v)
    ensures Step(fp, m, MicroInst(env, base, |temps|, step)) == Some(m.(vals := m.vals[base + |temps| := v]))
  {
    hide Apply, ApplyExt, EnvOk, Holds, Operands, RefVals;
    var i := MicroInst(env, base, |temps|, step);
    TypesOf(m, env, step.ty);
    if step.op == 12 {
      var rs := step.args[2..];
      OperandsOf(m, env, base, temps, rs);
      RefIdsTail(env, base, step.args);
      assert i.args[4..] == RefIds(env, base, rs);
      assert i.args[2] == env.ids.Glsl() && i.args[3] == step.args[1].n;
      assert env.ids.Glsl() in m.vals && m.vals[env.ids.Glsl()] == VGlsl by { GlslOf(m, env); }
    } else {
      OperandsOf(m, env, base, temps, step.args);
      assert i.args[2..] == RefIds(env, base, step.args);
    }
  }

  lemma GlslOf(m: Machine, env: Env)
    requires EnvOk(m, env)
    ensures env.ids.Glsl() in m.vals && m.vals[env.ids.Glsl()] == VGlsl
  {
  }

  lemma RefIdsTail(env: Env, base: nat, rs: seq<Ref>)
    requires |rs| >= 2
    ensures RefIds(env, base, rs)[2..] == RefIds(env, base, rs[2..])
  {
  }

  /** Defining a fresh temporary keeps the environment and extends the temporaries. */
  lemma Extend(m: Machine, env: Env, base: nat, temps: seq<Val>, v: Val)
    requires EnvOk(m, env) && Holds(m, base, temps) && env.Body() <= base
    ensures var n := m.(vals := m.vals[base + |temps| := v]);
            EnvOk(n, env) && Holds(n, base, temps + [v]) && SameBelow(m, n, base)
  {
    var n := m.(vals := m.vals[base + |temps| := v]);
    var more := temps + [v];
    forall k | 0 <= k < |more| ensures At(n, base + k, more[k]) {
      if k < |temps| {
        assert At(m, base + k, temps[k]);
      }
    }
  }

  lemma SameBelowTrans(a: Machine, b: Machine, c: Machine, base: nat)
    requires SameBelow(a, b, base) && SameBelow(b, c, base)
    ensures SameBelow(a, c, base)
  {
  }

  /** The body of a recipe executes as it evaluates. */
  lemma {:induction false} BodySim(fp: FloatOps, m: Machine, env: Env, base: nat, temps: seq<Val>, body: seq<Micro>) returns (n: Machine)
    requires EnvOk(m, env) && Holds(m, base, temps) && env.Body() <= base && EvalBody(fp, temps, body).Some?
    ensures Exec(fp, m, BodyCode(env, base, |temps|, body)) == Some(n)
    ensures EnvOk(n, env) && Holds(n, base, EvalBody(fp, temps, body).value) && SameBelow(m, n, base)
    decreases |body|
  {
    hide EnvOk, Holds, SameBelow, EvalStep, Step, MicroInst;
    if body == [] {
      n := m;
      assert SameBelow(m, m, base) by { SameBelowRefl(m, base); }
    } else {
      var v := EvalStep(fp, temps, body[0]).value;
      StepSim(fp, m, env, base, temps, body[0], v);
      Extend(m, env, base, temps, v);
      var m1 := m.(vals := m.vals[base + |temps| := v]);
      n := BodySim(fp, m1, env, base, temps + [v], body[1..]);
      SameBelowTrans(m, m1, n, base);
      var code := BodyCode(env, base, |temps|, body);
      assert code[0] == MicroInst(env, base, |temps|, body[0]);
      assert code[1..] == BodyCode(env, base, |temps + [v]|, body[1..]);
    }
  }

  lemma SameBelowRefl(m: Machine, base: nat)
    ensures SameBelow(m, m, base)
  {
  }

  // ── Loads and stores ───────────────────────────────────────────────────

  /** The variables hold the register file. */
  ghost predicate VarsHold(m: Machine, vars: map<nat, nat>, regs: Regs) {
    forall r :: r in vars ==>
      r < 256 && vars[r] in m.declared && vars[r] in m.vars && m.vars[vars[r]] == VF(regs[r])
  }

  /** The first n sources as loaded values. */
  function Sources(i: IrInst, regs: Regs, n: nat): (vs: seq<Val>)
    requires n <= 3
    ensures |vs| == n
  {
    if n == 0 then [] else Sources(i, regs, n - 1) + [VF(regs[i.Src(n - 1).Reg()])]
  }

  lemma ExecOne(fp: FloatOps, m: Machine, i: Inst)
    ensures Exec(fp, m, [i]) == Step(fp, m, i)
  {
    assert [i][1..] == [];
    if Step(fp, m, i).Some? {
      assert Exec(fp, Step(fp, m, i).value, []) == Step(fp, m, i);
    }
  }

  lemma {:induction false} AllMapped(vars: map<nat, nat>, i: IrInst, n: nat)
    requires n <= 3 && forall k: nat :: k < n ==> i.Src(k).Reg() in vars
    ensures Mapped(vars, i, n) == n
  {
    if n > 0 {
      AllMapped(vars, i, n - 1);
    }
  }

  lemma LoadStep(fp: FloatOps, m: Machine, env: Env, vars: map<nat, nat>, regs: Regs, r: nat, id: nat)
    requires EnvOk(m, env) && VarsHold(m, vars, regs) && r in vars && r < 256
    ensures Step(fp, m, Inst(61, [env.F32(), id, vars[r]])) == Some(m.(vals := m.vals[id := VF(regs[r])]))
  {
  }

  lemma {:induction false} LoadSim(fp: FloatOps, m: Machine, env: Env, vars: map<nat, nat>, regs: Regs, i: IrInst, n: nat, next: nat)
    returns (m': Machine)
    requires n <= 3 && EnvOk(m, env) && VarsHold(m, vars, regs) && env.Body() <= next
    requires forall k: nat :: k < n ==> i.Src(k).Reg() in vars
    ensures Exec(fp, m, LoadCode(env, vars, i, n, next)) == Some(m')
    ensures EnvOk(m', env) && Holds(m', next, Sources(i, regs, n)) && SameBelow(m, m', next)
  {
    hide EnvOk, SameBelow, Exec, Step, Holds, VarsHold, Mapped;
    if n == 0 {
      m' := m;
      NothingLoaded(fp, m, next);
    } else {
      var m1 := LoadSim(fp, m, env, vars, regs, i, n - 1, next);
      VarsKept(m, m1, vars, regs, next);
      AllMapped(vars, i, n - 1);
      var r := i.Src(n - 1).Reg();
      LoadOneSim(fp, m1, env, vars, regs, r, next, Sources(i, regs, n - 1));
      ExecAppend(fp, m, LoadCode(env, vars, i, n - 1, next), [Inst(61, [env.F32(), next + (n - 1), vars[r]])]);
      m' := m1.(vals := m1.vals[next + (n - 1) := VF(regs[r])]);
      SameBelowTrans(m, m1, m', next);
    }
  }

  lemma NothingLoaded(fp: FloatOps, m: Machine, next: nat)
    ensures Exec(fp, m, []) == Some(m) && Holds(m, next, []) && SameBelow(m, m, next)
  {
  }

  /** One more load. */
  lemma LoadOneSim(fp: FloatOps, m: Machine, env: Env, vars: map<nat, nat>, regs: Regs, r: nat, next: nat, vs: seq<Val>)
    requires EnvOk(m, env) && VarsHold(m, vars, regs) && Holds(m, next, vs) && env.Body() <= next && r in vars && r < 256
    ensures var m' := m.(vals := m.vals[next + |vs| := VF(regs[r])]);
            && Exec(fp, m, [Inst(61, [env.F32(), next + |vs|, vars[r]])]) == Some(m')
            && EnvOk(m', env) && Holds(m', next, vs + [VF(regs[r])]) && SameBelow(m, m', next)
  {
    hide EnvOk, VarsHold, Holds, SameBelow, Step, Exec;
    LoadStep(fp, m, env, vars, regs, r, next + |vs|);
    ExecOne(fp, m, Inst(61, [env.F32(), next + |vs|, vars[r]]));
    Extend(m, env, next, vs, VF(regs[r]));
  }

  lemma VarsKept(m: Machine, n: Machine, vars: map<nat, nat>, regs: Regs, base: nat)
    requires VarsHold(m, vars, regs) && SameBelow(m, n, base)
    ensures VarsHold(n, vars, regs)
  {
  }

  /** Storing a word to the variable of a register updates that register alone. */
  lemma StoreSim(fp: FloatOps, m: Machine, vars: map<nat, nat>, regs: Regs, r: nat, id: nat, w: u32)
    requires VarsHold(m, vars, regs) && r in vars && r < 256 && id in m.vals && m.vals[id] == VF(w)
    requires forall p, q :: p in vars && q in vars && p != q ==> vars[p] != vars[q]
    ensures var n := m.(vars := m.vars[vars[r] := VF(w)]);
            Exec(fp, m, [Inst(62, [vars[r], id])]) == Some(n) && VarsHold(n, vars, regs[r := w])
  {
    ExecOne(fp, m, Inst(62, [vars[r], id]));
  }

  // ── One instruction ────────────────────────────────────────────────────

  /** Everything the simulation keeps between instructions. */
  ghost predicate Related(m: Machine, env: Env, vars: map<nat, nat>, regs: Regs) {
    && EnvOk(m, env) && VarsHold(m, vars, regs)
    && forall p, q :: p in vars && q in vars && p != q ==> vars[p] != vars[q]
  }

  /** Variables that stand for no register keep their contents. */
  ghost predicate OthersKept(m: Machine, n: Machine, vars: map<nat, nat>) {
    m.declared <= n.declared && forall x :: x in m.vars && x !in vars.Values ==> x in n.vars && n.vars[x] == m.vars[x]
  }

  lemma SourcesLoaded(i: IrInst, regs: Regs, n: nat)
    requires n <= 3
    ensures Sources(i, regs, n) == Loaded(n, regs[i.src0.Reg()], regs[i.src1.Reg()], regs[i.src2.Reg()])
  {
    if n >= 1 {
      assert Sources(i, regs, 1) == [] + [VF(regs[i.src0.Reg()])];
    }
    if n >= 2 {
      assert Sources(i, regs, 2) == Sources(i, regs, 1) + [VF(regs[i.src1.Reg()])];
    }
    if n >= 3 {
      assert Sources(i, regs, 3) == Sources(i, regs, 2) + [VF(regs[i.src2.Reg()])];
    }
  }

  /** The value a recipe stores is in the machine after its body. */
  lemma ValueHeld(m: Machine, env: Env, base: nat, temps: seq<Val>, r: Ref, v: Val)
    requires EnvOk(m, env) && Holds(m, base, temps) && RefVal(temps, r) == Some(v)
    ensures RefId(env, base, r) in m.vals && m.vals[RefId(env, base, r)] == v
  {
  }

  /** A recipe that computes a word stores that word in the destination's variable. */
  lemma RecipeSim(fp: FloatOps, m: Machine, env: Env, vars: map<nat, nat>, regs: Regs, i: IrInst, r: Recipe, w: u32, next: nat)
    returns (m': Machine)
    requires Related(m, env, vars, regs) && env.Body() <= next && Shaped(r) && r.loads <= i.srcCount
    requires Computes(fp, r, Sources(i, regs, r.loads), w)
    requires i.dest.Reg() in vars && forall k: nat :: k < r.loads ==> i.Src(k).Reg() in vars
    ensures Exec(fp, m, RecipeOut(env, vars, map[], i, r, next).code) == Some(m')
    ensures RecipeOut(env, vars, map[], i, r, next).preds == map[] && next <= RecipeOut(env, vars, map[], i, r, next).next
    ensures Related(m', env, vars, regs[i.dest.Reg() := w])
    ensures OthersKept(m, m', vars)
  {
    hide EnvOk, Holds, EvalBody, BodyCode, LoadCode, Shaped, RefVal, RefId;
    AllMapped(vars, i, r.loads);
    var loads, body := LoadCode(env, vars, i, r.loads, next), BodyCode(env, next, r.loads, r.body);
    var temps := Sources(i, regs, r.loads);
    var m1 := LoadSim(fp, m, env, vars, regs, i, r.loads, next);
    var m2 := BodySim(fp, m1, env, next, temps, r.body);
    SameBelowTrans(m, m1, m2, next);
    var id := RefId(env, next, r.val);
    ValueHeld(m2, env, next, EvalBody(fp, temps, r.body).value, r.val, VF(w));
    VarsKept(m, m2, vars, regs, next);
    StoreSim(fp, m2, vars, regs, i.dest.Reg(), id, w);
    var store := [Inst(62, [vars[i.dest.Reg()], id])];
    ExecAppend(fp, m, loads, body);
    ExecAppend(fp, m, loads + body, store);
    m' := m2.(vars := m2.vars[vars[i.dest.Reg()] := VF(w)]);
    assert EnvOk(m', env) by { EnvKept(m2, m', env); }
  }

  lemma EnvKept(m: Machine, n: Machine, env: Env)
    requires EnvOk(m, env) && n.types == m.types && n.vals == m.vals
    ensures EnvOk(n, env)
  {
  }

  /** One scalar instruction: the machine runs its code to the instruction's effect on the registers. */
  lemma InstSim(fp: FloatOps, m: Machine, env: Env, vars: map<nat, nat>, regs: Regs, i: IrInst, next: nat) returns (m': Machine)
    requires Related(m, env, vars, regs) && env.Body() <= next && Scalar(i) && EmitterIds.Covered(vars, i)
    ensures Exec(fp, m, InstOut(env, vars, map[], i, next).code) == Some(m')
    ensures InstOut(env, vars, map[], i, next).preds == map[] && next <= InstOut(env, vars, map[], i, next).next
    ensures Related(m', env, vars, IrStep(fp, regs, i))
    ensures OthersKept(m, m', vars)
  {
    hide Related, Computes, RecipeOf, RecipeOut, Arity, Value;
    var a, b, c := regs[i.src0.Reg()], regs[i.src1.Reg()], regs[i.src2.Reg()];
    ScalarRecipe(fp, i, a, b, c, env.ids.tex);
    var r := RecipeOf(i, env.ids.tex).value;
    var n := Arity(i.opcode, i.src0.mufu);
    SourcesLoaded(i, regs, n);
    assert r.loads == n by { LoadsOf(fp, r, Loaded(n, a, b, c), Value(fp, i.opcode, i.src0.mufu, a, b, c)); }
    m' := RecipeSim(fp, m, env, vars, regs, i, r, Value(fp, i.opcode, i.src0.mufu, a, b, c), next);
    assert i.opcode != Ctl(KIL) by { ScalarNotControl(i); }
  }

  lemma LoadsOf(fp: FloatOps, r: Recipe, loaded: seq<Val>, w: u32)
    requires Computes(fp, r, loaded, w)
    ensures r.loads == |loaded|
  {
  }

  lemma ScalarNotControl(i: IrInst)
    requires Scalar(i)
    ensures !i.opcode.Ctl?
  {
  }

  // ── The control-flow pass on straight-line code ────────────────────────

  lemma {:induction false} NoPairs(insts: seq<IrInst>, n: nat)
    requires n <= |insts| && forall k :: 0 <= k < |insts| ==> insts[k].opcode != Ctl(SSY)
    ensures PairsUpTo(insts, n) == []
  {
    if n > 0 {
      NoPairs(insts, n - 1);
    }
  }

  lemma StraightCfg(p: Program)
    requires StraightLine(p)
    ensures CfgOf(p.insts).starts == {p.insts[0].pc}
  {
    forall k | 0 <= k < |p.insts| ensures p.insts[k].opcode != Ctl(SSY) {
      if k < |p.insts| - 1 && p.insts[k].opcode != Ctl(NOP) {
        ScalarNotControl(p.insts[k]);
      }
    }
    NoPairs(p.insts, |p.insts|);
    assert StartsOf([]) == {};
  }

  /** What the pass looks like after any prefix of straight-line code. */
  predicate Quiet(s: S, first: u32, lo: nat) {
    s.preds == map[] && s.emitted == {first} && lo <= s.next
  }

  lemma ScalarDispatch(env: Env, vars: map<nat, nat>, insts: seq<IrInst>, cfg: Cfg, n: nat, s: S)
    requires n < |insts| && !insts[n].opcode.Ctl?
    ensures var o := InstOut(env, vars, s.preds, insts[n], s.next);
            Dispatch(env, vars, insts, cfg, n, s) == s.(code := s.code + o.code, next := o.next, preds := o.preds)
  {
    hide InstOut;
  }

  lemma IdleDispatch(env: Env, vars: map<nat, nat>, insts: seq<IrInst>, cfg: Cfg, n: nat, s: S)
    requires n < |insts| && (insts[n].opcode == Ctl(NOP) || insts[n].opcode == Ctl(EXIT))
    ensures Dispatch(env, vars, insts, cfg, n, s) == s
  {
    assert InstOut(env, vars, s.preds, insts[n], s.next) == Out([], s.next, s.preds);
    assert s.code + [] == s.code;
  }

  lemma IrIdle(fp: FloatOps, regs: Regs, i: IrInst)
    requires i.opcode.Ctl?
    ensures IrStep(fp, regs, i) == regs
  {
  }

  lemma OthersTrans(a: Machine, b: Machine, c: Machine, vars: map<nat, nat>)
    requires OthersKept(a, b, vars) && OthersKept(b, c, vars)
    ensures OthersKept(a, c, vars)
  {
  }

  lemma IrRunLast(fp: FloatOps, insts: seq<IrInst>, n: nat, regs: Regs)
    requires 0 < n <= |insts|
    ensures IrRun(fp, insts[..n], regs) == IrStep(fp, IrRun(fp, insts[..n - 1], regs), insts[n - 1])
  {
    assert insts[..n][..n - 1] == insts[..n - 1];
  }

  /** One instruction of a straight-line program, through the control-flow pass. */
  lemma DispatchSim(fp: FloatOps, m: Machine, env: Env, vars: map<nat, nat>, p: Program, regs: Regs, n: nat, s: S)
    returns (m': Machine, added: seq<Inst>)
    requires StraightLine(p) && n < |p.insts| && Related(m, env, vars, regs)
    requires EmitterIds.Covered(vars, p.insts[n]) && Quiet(s, p.insts[0].pc, env.Body())
    ensures var t := Dispatch(env, vars, p.insts, CfgOf(p.insts), n, StartBlock(CfgOf(p.insts), s, p.insts[n].pc));
            Quiet(t, p.insts[0].pc, env.Body()) && t.code == s.code + added
    ensures Exec(fp, m, added) == Some(m') && Related(m', env, vars, IrStep(fp, regs, p.insts[n])) && OthersKept(m, m', vars)
  {
    hide Related, InstOut, Dispatch, CfgOf, IrStep, Scalar, EmitterIds.Covered;
    var cfg, i := CfgOf(p.insts), p.insts[n];
    StraightCfg(p);
    assert StartBlock(cfg, s, i.pc) == s;
    if n < |p.insts| - 1 && i.opcode != Ctl(NOP) {
      ScalarNotControl(i);
      ScalarDispatch(env, vars, p.insts, cfg, n, s);
      added := InstOut(env, vars, map[], i, s.next).code;
      m' := InstSim(fp, m, env, vars, regs, i, s.next);
    } else {
      IdleDispatch(env, vars, p.insts, cfg, n, s);
      IrIdle(fp, regs, i);
      added := [];
      m' := m;
      assert s.code + added == s.code;
      assert Exec(fp, m, []) == Some(m);
    }
  }

  /** Running the code of the first n instructions leaves the registers those instructions compute. */
  lemma {:induction false} FlowSim(fp: FloatOps, m: Machine, env: Env, vars: map<nat, nat>, p: Program, regs: Regs, n: nat, s: S)
    returns (m': Machine)
    requires StraightLine(p) && n <= |p.insts| && Related(m, env, vars, regs)
    requires forall k :: 0 <= k < |p.insts| ==> EmitterIds.Covered(vars, p.insts[k])
    requires Quiet(s, p.insts[0].pc, env.Body()) && s.code == []
    ensures Quiet(Flow(env, vars, p.insts, CfgOf(p.insts), n, s), p.insts[0].pc, env.Body())
    ensures Exec(fp, m, Flow(env, vars, p.insts, CfgOf(p.insts), n, s).code) == Some(m')
    ensures Related(m', env, vars, IrRun(fp, p.insts[..n], regs)) && OthersKept(m, m', vars)
    decreases n
  {
    hide Related, Dispatch, StartBlock, CfgOf, IrStep, StraightLine, EmitterIds.Covered, Quiet;
    if n == 0 {
      m' := m;
    } else {
      var m1 := FlowSim(fp, m, env, vars, p, regs, n - 1, s);
      var before := Flow(env, vars, p.insts, CfgOf(p.insts), n - 1, s);
      var added: seq<Inst>;
      m', added := DispatchSim(fp, m1, env, vars, p, IrRun(fp, p.insts[..n - 1], regs), n - 1, before);
      ExecAppend(fp, m, before.code, added);
      IrRunLast(fp, p.insts, n, regs);
      OthersTrans(m, m1, m', vars);
    }
  }
}
