/**
 The layout of a module: its words split exactly into instructions, and the
 instructions follow the order of section 2.4 of the SPIR-V specification.
 */
module EmitterLayout {
  import opened Common
  import opened Spirv
  import opened ShaderIr
  import opened EmitterSpec
  import EmitterIds

  // ── What the control-flow pass adds ────────────────────────────────────

  /** Labels, branches, merges and loads of predicates. */
  predicate FlowInst(i: Inst) {
    (246 <= i.op <= 250 || i.op == 61) && |i.args| <= 3
  }

  /** b is a followed by control-flow instructions. */
  predicate Extends(a: seq<Inst>, b: seq<Inst>) {
    && |a| <= |b| && b[..|a|] == a
    && forall k :: |a| <= k < |b| ==> FlowInst(b[k])
  }

  lemma ExtendsTrans(a: seq<Inst>, b: seq<Inst>, c: seq<Inst>)
    requires Extends(a, b) && Extends(b, c)
    ensures Extends(a, c)
  {
    assert c[..|a|] == b[..|a|];
  }

  lemma MergeExtends(s: S)
    ensures Extends(s.code, Merge(s).code)
  {
  }

  lemma BranchExtends(s: S, pc: u32)
    ensures Extends(s.code, BranchTo(s, pc).code)
  {
  }

  lemma GuardedExtends(env: Env, s: S, i: IrInst, falsePc: u32)
    ensures Extends(s.code, GuardedBranch(env, s, i, falsePc).code)
  {
    MergeExtends(s);
    var m := Merge(s);
    assert Extends(m.code, GuardedBranch(env, s, i, falsePc).code) by { hide Merge; }
    ExtendsTrans(s.code, m.code, GuardedBranch(env, s, i, falsePc).code);
  }

  lemma SsyExtends(cfg: Cfg, s: S, pc: u32)
    ensures PushSsy(cfg, s, pc).code == s.code
  {
  }

  /** An instruction adds either its lowered code or control flow. */
  lemma DispatchAdds(env: Env, vars: map<nat, nat>, insts: seq<IrInst>, cfg: Cfg, n: nat, s: S)
    requires n < |insts|
    ensures var after := Dispatch(env, vars, insts, cfg, n, s).code;
            after == s.code + InstOut(env, vars, s.preds, insts[n], s.next).code || Extends(s.code, after)
  {
    hide InstOut, Merge, BranchTo, GuardedBranch, PushSsy, FalsePc, LabelPc, FlowInst;
    var i := insts[n];
    SsyExtends(cfg, s, i.pc);
    MergeExtends(s);
    BranchExtends(Merge(s), LabelPc(i.src0));
    ExtendsTrans(s.code, Merge(s).code, BranchTo(Merge(s), LabelPc(i.src0)).code);
    GuardedExtends(env, s, i, FalsePc(insts, n));
    if s.stack != [] {
      var top := s.stack[|s.stack| - 1];
      BranchExtends(s, top.syncPc);
      if PairAt(cfg.pairs, top.ssyPc).Some? {
        BranchExtends(s, PairAt(cfg.pairs, top.ssyPc).value.braTarget);
      }
    }
  }

  // ── Physical layout ────────────────────────────────────────────────────

  lemma DispatchFits(env: Env, vars: map<nat, nat>, insts: seq<IrInst>, cfg: Cfg, n: nat, s: S)
    requires n < |insts| && AllFit(s.code)
    ensures AllFit(Dispatch(env, vars, insts, cfg, n, s).code)
  {
    hide InstOut, Dispatch;
    EmitterIds.InstFresh(env, vars, s.preds, insts[n], s.next);
    DispatchAdds(env, vars, insts, cfg, n, s);
    var after := Dispatch(env, vars, insts, cfg, n, s).code;
    if Extends(s.code, after) {
      assert forall k :: 0 <= k < |s.code| ==> after[k] == after[..|s.code|][k];
    }
  }

  lemma {:induction false} FlowFits(env: Env, vars: map<nat, nat>, insts: seq<IrInst>, cfg: Cfg, n: nat, s: S)
    requires n <= |insts| && AllFit(s.code)
    ensures AllFit(Flow(env, vars, insts, cfg, n, s).code)
    decreases n
  {
    hide Dispatch;
    if n > 0 {
      FlowFits(env, vars, insts, cfg, n - 1, s);
      DispatchFits(env, vars, insts, cfg, n - 1,
                   StartBlock(cfg, Flow(env, vars, insts, cfg, n - 1, s), insts[n - 1].pc));
    }
  }

  lemma GlobalsFit(p: Program, ids: Ids)
    requires ids.io == IoIds(p)
    ensures AllFit(Globals(p, ids)) && AllFit(FunctionStart(ids))
  {
    assert AllFit(ModuleHead(p, ids));
    assert AllFit(Decorations(p, ids));
    assert AllFit(BaseTypes(ids));
    assert AllFit(Constants(ids.base));
    assert AllFit(GlobalVariables(p, ids));
  }

  lemma GprsFit(p: Program, stale: nat)
    ensures AllFit(GprsOf(p, stale).code)
  {
    hide BuildGprs;
    var env := Env(IdsOf(p, stale));
    EmitterIds.GprsFresh(env.F32FnPtr(), p.insts, env.Body());
  }

  lemma ModuleFits(p: Program, stale: nat)
    ensures AllFit(Module(p, stale))
  {
    hide Globals, FunctionStart, GprsOf, Flow, CfgOf;
    var ids := IdsOf(p, stale);
    GlobalsFit(p, ids);
    GprsFit(p, stale);
    var g := GprsOf(p, stale);
    FlowFits(Env(ids), g.vars, p.insts, CfgOf(p.insts), |p.insts|, FlowStart(p, g.next + IoCount(p)));
    assert AllFit(FlowOf(p, stale).code);
    assert AllFit(IoBody(p, Env(ids), g.next));
  }

  /**
   For every program the words after the five-word header are cut by their word
   counts into exactly the module's instructions, with nothing left over.
   */
  lemma PhysicalLayout(p: Program, stale: nat, bound: nat)
    ensures |ModuleWords(p, stale, bound)| >= 5
    ensures Split(ModuleWords(p, stale, bound)[5..]) == Some(Module(p, stale))
  {
    hide Module, FlowOf;
    ModuleFits(p, stale);
    SplitEncode(Module(p, stale));
    assert ModuleWords(p, stale, bound)[5..] == EncodeAll(Module(p, stale));
  }

  // ── Logical layout ─────────────────────────────────────────────────────

  /** The section a module-level instruction belongs to; 10 is the function section. */
  function Section(op: nat): nat {
    if op == 17 then 1
    else if op == 11 then 3
    else if op == 14 then 4
    else if op == 15 then 5
    else if op == 16 then 6
    else if op == 71 then 8
    else if 19 <= op <= 33 || 41 <= op <= 44 || op == 59 then 9
    else 10
  }

  predicate SectionsInOrder(code: seq<Inst>, lo: nat, hi: nat) {
    && (forall k :: 0 <= k < |code| ==> lo <= Section(code[k].op) <= hi)
    && (forall j, k :: 0 <= j < k < |code| ==> Section(code[j].op) <= Section(code[k].op))
  }

  /** An instruction that may stand in a block after the variables. */
  predicate InBlock(i: Inst) {
    Section(i.op) == 10 && i.op != 54 && i.op != 56
  }

  predicate AllInBlock(code: seq<Inst>) {
    forall k :: 0 <= k < |code| ==> InBlock(code[k])
  }

  predicate AllFunctionVariables(code: seq<Inst>) {
    forall k :: 0 <= k < |code| ==> code[k].op == 59 && |code[k].args| == 3 && code[k].args[2] == 7
  }

  /**
   Module-level sections in order, then one function: its start, its entry
   label, its variables, its blocks and its end.
   */
  ghost predicate LogicalLayout(code: seq<Inst>) {
    exists globals, start, entry, vars, blocks ::
      && code == globals + [start, entry] + vars + blocks + [Inst(56, [])]
      && SectionsInOrder(globals, 1, 9) && start.op == 54 && entry.op == 248
      && AllFunctionVariables(vars) && AllInBlock(blocks)
  }

  lemma SectionsAppend(a: seq<Inst>, b: seq<Inst>, lo: nat, mid: nat, mid': nat, hi: nat)
    requires SectionsInOrder(a, lo, mid) && SectionsInOrder(b, mid', hi) && lo <= mid <= mid' <= hi
    ensures SectionsInOrder(a + b, lo, hi)
  {
  }

  lemma HeadSections(p: Program, ids: Ids)
    ensures SectionsInOrder(ModuleHead(p, ids), 1, 6)
  {
  }

  lemma DecorationSections(p: Program, ids: Ids)
    requires ids.io == IoIds(p)
    ensures SectionsInOrder(Decorations(p, ids), 8, 8)
  {
  }

  /** A list of types, constants and variables is in order. */
  lemma FlatSections(code: seq<Inst>)
    requires forall k :: 0 <= k < |code| ==> Section(code[k].op) == 9
    ensures SectionsInOrder(code, 9, 9)
  {
  }

  lemma TypeSections(ids: Ids)
    ensures SectionsInOrder(BaseTypes(ids), 9, 9) && SectionsInOrder(Constants(ids.base), 9, 9)
  {
    hide SectionsInOrder;
    var b := ids.base;
    FlatSections(ScalarTypes(b));
    FlatSections(VectorTypes(b));
    FlatSections(PointerTypes(b));
    FlatSections(CbufTypes(b, ids.CbufArray()));
    FlatSections(LastTypes(b, ids.CbufStruct()));
    FlatSections(Constants(b));
    JoinFlat(ScalarTypes(b), VectorTypes(b), PointerTypes(b), CbufTypes(b, ids.CbufArray()), LastTypes(b, ids.CbufStruct()));
  }

  lemma JoinFlat(a: seq<Inst>, b: seq<Inst>, c: seq<Inst>, d: seq<Inst>, e: seq<Inst>)
    requires SectionsInOrder(a, 9, 9) && SectionsInOrder(b, 9, 9) && SectionsInOrder(c, 9, 9)
    requires SectionsInOrder(d, 9, 9) && SectionsInOrder(e, 9, 9)
    ensures SectionsInOrder(a + b + c + d + e, 9, 9)
  {
    hide SectionsInOrder;
    SectionsAppend(a, b, 9, 9, 9, 9);
    SectionsAppend(a + b, c, 9, 9, 9, 9);
    SectionsAppend(a + b + c, d, 9, 9, 9, 9);
    SectionsAppend(a + b + c + d, e, 9, 9, 9, 9);
  }

  lemma VariableSections(p: Program, ids: Ids)
    requires ids.io == IoIds(p)
    ensures SectionsInOrder(GlobalVariables(p, ids), 9, 9)
  {
  }

  lemma JoinSections(head: seq<Inst>, deco: seq<Inst>, types: seq<Inst>, constants: seq<Inst>, vars: seq<Inst>, func: Inst)
    requires SectionsInOrder(head, 1, 6) && SectionsInOrder(deco, 8, 8) && SectionsInOrder(types, 9, 9)
    requires SectionsInOrder(constants, 9, 9) && SectionsInOrder(vars, 9, 9) && Section(func.op) == 9
    ensures SectionsInOrder(head + deco + types + constants + vars + [func], 1, 9)
  {
    hide SectionsInOrder;
    SectionsAppend(head, deco, 1, 6, 8, 8);
    SectionsAppend(head + deco, types, 1, 8, 9, 9);
    SectionsAppend(head + deco + types, constants, 1, 9, 9, 9);
    SectionsAppend(head + deco + types + constants, vars, 1, 9, 9, 9);
    assert SectionsInOrder([func], 9, 9) by { OneSection(func); }
    SectionsAppend(head + deco + types + constants + vars, [func], 1, 9, 9, 9);
  }

  lemma OneSection(i: Inst)
    requires Section(i.op) == 9
    ensures SectionsInOrder([i], 9, 9)
  {
  }

  lemma {:induction false} BodyInBlock(env: Env, base: nat, k: nat, body: seq<Micro>)
    requires ValueSteps(body) && NoConstants(body)
    ensures AllInBlock(BodyCode(env, base, k, body))
    decreases |body|
  {
    if body != [] {
      BodyInBlock(env, base, k + 1, body[1..]);
    }
  }

  lemma {:induction false} LoadInBlock(env: Env, vars: map<nat, nat>, i: IrInst, n: nat, next: nat)
    requires n <= 3
    ensures AllInBlock(LoadCode(env, vars, i, n, next))
  {
    if n > 0 {
      LoadInBlock(env, vars, i, n - 1, next);
    }
  }

  lemma InstInBlock(env: Env, vars: map<nat, nat>, preds: map<nat, nat>, i: IrInst, next: nat)
    requires !Declaring(i.opcode)
    ensures AllInBlock(InstOut(env, vars, preds, i, next).code)
  {
    hide RecipeOf, LoadCode, BodyCode, RefId;
    if i.opcode != Ctl(KIL) && RecipeOf(i, env.ids.tex).Some? {
      var r := RecipeOf(i, env.ids.tex).value;
      LoadInBlock(env, vars, i, r.loads, next);
      BodyInBlock(env, next, r.loads, r.body);
    }
  }

  lemma DispatchInBlock(env: Env, vars: map<nat, nat>, insts: seq<IrInst>, cfg: Cfg, n: nat, s: S)
    requires n < |insts| && AllInBlock(s.code) && !Declaring(insts[n].opcode)
    ensures AllInBlock(Dispatch(env, vars, insts, cfg, n, s).code)
  {
    hide InstOut, Dispatch;
    InstInBlock(env, vars, s.preds, insts[n], s.next);
    DispatchAdds(env, vars, insts, cfg, n, s);
    var after := Dispatch(env, vars, insts, cfg, n, s).code;
    if Extends(s.code, after) {
      assert forall k :: 0 <= k < |s.code| ==> after[k] == after[..|s.code|][k];
    }
  }

  lemma {:induction false} FlowInBlock(env: Env, vars: map<nat, nat>, insts: seq<IrInst>, cfg: Cfg, n: nat, s: S)
    requires n <= |insts| && AllInBlock(s.code) && forall k :: 0 <= k < |insts| ==> !Declaring(insts[k].opcode)
    ensures AllInBlock(Flow(env, vars, insts, cfg, n, s).code)
    decreases n
  {
    hide Dispatch;
    if n > 0 {
      FlowInBlock(env, vars, insts, cfg, n - 1, s);
      DispatchInBlock(env, vars, insts, cfg, n - 1,
                      StartBlock(cfg, Flow(env, vars, insts, cfg, n - 1, s), insts[n - 1].pc));
    }
  }

  lemma {:induction false} GprsAreVariables(ptr: nat, insts: seq<IrInst>, next: nat)
    ensures AllFunctionVariables(BuildGprs(ptr, insts, next).code)
  {
    if insts != [] {
      GprsAreVariables(ptr, insts[..|insts| - 1], next);
      var g := BuildGprs(ptr, insts[..|insts| - 1], next);
      var i := insts[|insts| - 1];
      SourcesAreVariables(ptr, AddGpr(ptr, g, i.dest), i, i.srcCount);
    }
  }

  lemma {:induction false} SourcesAreVariables(ptr: nat, g: Gprs, i: IrInst, n: nat)
    requires n <= 3 && AllFunctionVariables(g.code)
    ensures AllFunctionVariables(AddSources(ptr, g, i, n).code)
  {
    if n > 0 {
      SourcesAreVariables(ptr, g, i, n - 1);
    }
  }

  lemma GlobalSections(p: Program, ids: Ids)
    requires ids.io == IoIds(p)
    ensures SectionsInOrder(Globals(p, ids) + [Inst(33, [ids.base + 27, ids.base])], 1, 9)
  {
    hide SectionsInOrder, ModuleHead, Decorations, BaseTypes, Constants, GlobalVariables;
    HeadSections(p, ids);
    DecorationSections(p, ids);
    TypeSections(ids);
    VariableSections(p, ids);
    JoinSections(ModuleHead(p, ids), Decorations(p, ids), BaseTypes(ids), Constants(ids.base), GlobalVariables(p, ids),
                 Inst(33, [ids.base + 27, ids.base]));
  }

  /** How the parts of a module line up with the parts of the logical layout. */
  lemma Regroup(globals: seq<Inst>, func: Inst, start: Inst, entry: Inst, vars: seq<Inst>, io: seq<Inst>, flow: seq<Inst>,
                ret: seq<Inst>, end: Inst)
    ensures globals + [func, start, entry] + vars + io + flow + (ret + [end]) ==
            (globals + [func]) + [start, entry] + vars + (io + flow + ret) + [end]
  {
  }

  /**
   Without ISETP, FSETP, BFI and LEA, every program's module has its
   declarations in section order before the function and none inside it, and
   the function's variables at the head of its entry block.
   */
  lemma SectionOrder(p: Program, stale: nat)
    requires forall k :: 0 <= k < |p.insts| ==> !Declaring(p.insts[k].opcode)
    ensures LogicalLayout(Module(p, stale))
  {
    hide Globals, GprsOf, Flow, CfgOf, SectionsInOrder, IdsOf, IoBody, HasKil, AllInBlock, AllFunctionVariables;
    assert IdsOf(p, stale).io == IoIds(p) by { IoOf(p, stale); }
    var ids := IdsOf(p, stale);
    var env, b := Env(ids), ids.base;
    var g := GprsOf(p, stale);
    GlobalSections(p, ids);
    assert AllFunctionVariables(g.code) by { VariablesOf(p, stale); }
    EmptyInBlock();
    FlowInBlock(env, g.vars, p.insts, CfgOf(p.insts), |p.insts|, FlowStart(p, g.next + IoCount(p)));
    var io, flow := IoBody(p, env, g.next), FlowOf(p, stale).code;
    var ret := if HasKil(p.insts) then [] else [Inst(253, [])];
    BlocksInBlock(p, env, g.next, flow);
    var func, start, entry := Inst(33, [b + 27, b]), Inst(54, [b, ids.Func(), 0, b + 27]), Inst(248, [b + 28]);
    Regroup(Globals(p, ids), func, start, entry, g.code, io, flow, ret, Inst(56, []));
    assert Module(p, stale) ==
           (Globals(p, ids) + [func]) + [start, entry] + g.code + (io + flow + ret) + [Inst(56, [])];
  }

  lemma EmptyInBlock()
    ensures AllInBlock([])
  {
  }

  lemma IoOf(p: Program, stale: nat)
    ensures IdsOf(p, stale).io == IoIds(p)
  {
  }

  lemma BlocksInBlock(p: Program, env: Env, next: nat, flow: seq<Inst>)
    requires env.ids.io == IoIds(p) && AllInBlock(flow)
    ensures AllInBlock(IoBody(p, env, next) + flow + (if HasKil(p.insts) then [] else [Inst(253, [])]))
  {
    hide HasKil;
    assert AllInBlock(IoBody(p, env, next));
  }

  lemma VariablesOf(p: Program, stale: nat)
    ensures AllFunctionVariables(GprsOf(p, stale).code)
  {
    var env := Env(IdsOf(p, stale));
    GprsAreVariables(env.F32FnPtr(), p.insts, env.Body());
  }
}
