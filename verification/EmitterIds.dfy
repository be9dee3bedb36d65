/**
 Result ids: in every module the emitter produces, each id is the result of at
 most one instruction and lies below the bound written in the header.
 */
module EmitterIds {
  import opened Common
  import opened Sequences
  import opened Spirv
  import opened ShaderIr
  import opened EmitterSpec

  // ── One instruction ────────────────────────────────────────────────────

  lemma {:induction false} BodyFresh(env: Env, base: nat, k: nat, body: seq<Micro>)
    requires ValueSteps(body)
    ensures Fresh(BodyCode(env, base, k, body), base + k, base + k + |body|)
    ensures AllFit(BodyCode(env, base, k, body))
    decreases |body|
  {
    if body != [] {
      var first := MicroInst(env, base, k, body[0]);
      assert Result(first) == {base + k};
      DefsOne(first);
      BodyFresh(env, base, k + 1, body[1..]);
      FreshAppend([first], BodyCode(env, base, k + 1, body[1..]), base + k, base + k + 1, base + k + |body|);
    }
  }

  lemma {:induction false} LoadFresh(env: Env, vars: map<nat, nat>, i: IrInst, n: nat, next: nat)
    requires n <= 3
    ensures Fresh(LoadCode(env, vars, i, n, next), next, next + Mapped(vars, i, n))
    ensures AllFit(LoadCode(env, vars, i, n, next))
  {
    hide OnceEach, Defs;
    if n == 0 {
      DefsNone([]);
    } else {
      LoadFresh(env, vars, i, n - 1, next);
      if i.Src(n - 1).Reg() in vars {
        var id := next + Mapped(vars, i, n - 1);
        var load := Inst(61, [env.F32(), id, vars[i.Src(n - 1).Reg()]]);
        DefsOne(load);
        FreshAppend(LoadCode(env, vars, i, n - 1, next), [load], next, id, id + 1);
      } else {
        assert LoadCode(env, vars, i, n, next) == LoadCode(env, vars, i, n - 1, next);
      }
    }
  }

  lemma StoreFresh(env: Env, vars: map<nat, nat>, preds: map<nat, nat>, i: IrInst, toPredicate: bool, value: nat, next: nat)
    ensures var o := StoreOut(env, vars, preds, i, toPredicate, value, next);
            Fresh(o.code, next, o.next) && next <= o.next && AllFit(o.code)
  {
    var r := i.dest.Reg();
    if toPredicate && r !in preds {
      var decls := [Inst(32, [next, 7, env.Bool()]), Inst(59, [next, next + 1, 7])];
      var store := Inst(62, [next + 1, value]);
      Consecutive(decls, next);
      DefsOne(store);
      FreshAppend(decls, [store], next, next + 2, next + 2);
      assert StoreOut(env, vars, preds, i, toPredicate, value, next).code == decls + [store];
    } else {
      DefsNone(StoreOut(env, vars, preds, i, toPredicate, value, next).code);
    }
  }

  /** Appending three fresh stretches, each starting where the one before ended. */
  lemma FreshAppend3(a: seq<Inst>, b: seq<Inst>, c: seq<Inst>, lo: nat, m: nat, n: nat, hi: nat)
    requires lo <= m <= n <= hi && Fresh(a, lo, m) && Fresh(b, m, n) && Fresh(c, n, hi)
    requires AllFit(a) && AllFit(b) && AllFit(c)
    ensures Fresh(a + b + c, lo, hi) && AllFit(a + b + c)
  {
    FreshAppend(a, b, lo, m, n);
    FreshAppend(a + b, c, lo, n, hi);
  }

  lemma RecipeFresh(env: Env, vars: map<nat, nat>, preds: map<nat, nat>, i: IrInst, r: Recipe, next: nat)
    requires Shaped(r)
    ensures var o := RecipeOut(env, vars, preds, i, r, next);
            Fresh(o.code, next, o.next) && next <= o.next && AllFit(o.code)
  {
    hide StoreOut, LoadCode, BodyCode, RefId, OnceEach, Defs, ValueSteps;
    LoadFresh(env, vars, i, r.loads, next);
    if i.srcCount < r.minSrc || Mapped(vars, i, r.loads) < r.loads || r.val == RTex {
      DefsNone([]);
    } else {
      var end := next + r.loads + |r.body|;
      var value := RefId(env, next, r.val);
      BodyFresh(env, next, r.loads, r.body);
      StoreFresh(env, vars, preds, i, r.toPredicate, value, end);
      FreshAppend3(LoadCode(env, vars, i, r.loads, next), BodyCode(env, next, r.loads, r.body),
                   StoreOut(env, vars, preds, i, r.toPredicate, value, end).code,
                   next, next + r.loads, end, StoreOut(env, vars, preds, i, r.toPredicate, value, end).next);
    }
  }

  /** Lowering an instruction defines fresh ids only, each once, and every word count fits. */
  lemma InstFresh(env: Env, vars: map<nat, nat>, preds: map<nat, nat>, i: IrInst, next: nat)
    ensures var o := InstOut(env, vars, preds, i, next);
            Fresh(o.code, next, o.next) && next <= o.next && AllFit(o.code)
  {
    if i.opcode == Ctl(KIL) {
      DefsOne(Inst(252, []));
    } else if RecipeOf(i, env.ids.tex).Some? {
      RecipeFresh(env, vars, preds, i, RecipeOf(i, env.ids.tex).value, next);
    }
  }

  // ── Register variables ─────────────────────────────────────────────────

  ghost predicate GprsInv(g: Gprs, ptr: nat, lo: nat) {
    && lo <= g.next && Fresh(g.code, lo, g.next)
    && (forall r :: r in g.vars ==> lo <= g.vars[r] < g.next)
    && (forall r, q :: r in g.vars && q in g.vars && r != q ==> g.vars[r] != g.vars[q])
    && (forall k :: 0 <= k < |g.code| ==> g.code[k].op == 59 && |g.code[k].args| == 3)
  }

  lemma AddGprInv(ptr: nat, g: Gprs, o: Operand, lo: nat)
    requires GprsInv(g, ptr, lo)
    ensures GprsInv(AddGpr(ptr, g, o), ptr, lo)
    ensures o.kind.KGpr? ==> o.Reg() in AddGpr(ptr, g, o).vars
    ensures g.vars.Keys <= AddGpr(ptr, g, o).vars.Keys
  {
    if o.kind.KGpr? && o.Reg() !in g.vars {
      var decl := Inst(59, [ptr, g.next, 7]);
      DefsOne(decl);
      FreshAppend(g.code, [decl], lo, g.next, g.next + 1);
    }
  }

  lemma {:induction false} AddSourcesInv(ptr: nat, g: Gprs, i: IrInst, n: nat, lo: nat)
    requires n <= 3 && GprsInv(g, ptr, lo)
    ensures GprsInv(AddSources(ptr, g, i, n), ptr, lo)
    ensures g.vars.Keys <= AddSources(ptr, g, i, n).vars.Keys
    ensures forall k: nat :: k < n && i.Src(k).kind.KGpr? ==> i.Src(k).Reg() in AddSources(ptr, g, i, n).vars
  {
    hide GprsInv, AddGpr;
    if n > 0 {
      AddSourcesInv(ptr, g, i, n - 1, lo);
      AddGprInv(ptr, AddSources(ptr, g, i, n - 1), i.Src(n - 1), lo);
    }
  }

  /** The register operands of an instruction all have a variable. */
  predicate Covered(vars: map<nat, nat>, i: IrInst) {
    && (i.dest.kind.KGpr? ==> i.dest.Reg() in vars)
    && (forall k: nat :: k < i.srcCount && i.Src(k).kind.KGpr? ==> i.Src(k).Reg() in vars)
  }

  lemma AddInstInv(ptr: nat, g: Gprs, i: IrInst, lo: nat)
    requires GprsInv(g, ptr, lo)
    ensures GprsInv(AddInst(ptr, g, i), ptr, lo)
    ensures g.vars.Keys <= AddInst(ptr, g, i).vars.Keys
    ensures Covered(AddInst(ptr, g, i).vars, i)
  {
    AddGprInv(ptr, g, i.dest, lo);
    AddSourcesInv(ptr, AddGpr(ptr, g, i.dest), i, i.srcCount, lo);
  }

  /** Every register operand of every instruction has a variable of its own. */
  lemma {:induction false} GprsFresh(ptr: nat, insts: seq<IrInst>, next: nat)
    ensures GprsInv(BuildGprs(ptr, insts, next), ptr, next)
    ensures forall k :: 0 <= k < |insts| ==> Covered(BuildGprs(ptr, insts, next).vars, insts[k])
  {
    if insts != [] {
      var init := insts[..|insts| - 1];
      GprsFresh(ptr, init, next);
      AddInstInv(ptr, BuildGprs(ptr, init, next), insts[|insts| - 1], next);
      forall k | 0 <= k < |init| ensures Covered(BuildGprs(ptr, insts, next).vars, insts[k]) {
        assert init[k] == insts[k];
      }
    }
  }

  // ── Labels ─────────────────────────────────────────────────────────────

  /**
   Ids are fresh, each pc owns its label, and a label already placed in the
   code belongs to a pc recorded as emitted.
   */
  ghost predicate Labelled(code: seq<Inst>, next: nat, labels: map<u32, nat>, emitted: set<u32>, lo: nat) {
    && lo <= next && Fresh(code, lo, next)
    && (forall pc :: pc in labels ==> lo <= labels[pc] < next)
    && (forall pc, q :: pc in labels && q in labels && pc != q ==> labels[pc] != labels[q])
    && (forall pc :: pc in labels && labels[pc] in Defs(code) ==> pc in emitted)
  }

  ghost predicate LabelInv(s: S, lo: nat) {
    Labelled(s.code, s.next, s.labels, s.emitted, lo)
  }

  /** A pc may be given a fresh label, whether or not it had one. */
  lemma RelabelCore(code: seq<Inst>, next: nat, labels: map<u32, nat>, emitted: set<u32>, lo: nat, pc: u32)
    requires Labelled(code, next, labels, emitted, lo)
    ensures Labelled(code, next + 1, labels[pc := next], emitted, lo)
  {
    hide OnceEach, Defs;
  }

  /** Appending code with fresh ids keeps the label invariant. */
  lemma AppendCore(code: seq<Inst>, next: nat, labels: map<u32, nat>, emitted: set<u32>, lo: nat, more: seq<Inst>, next': nat)
    requires Labelled(code, next, labels, emitted, lo) && next <= next' && Fresh(more, next, next')
    ensures Labelled(code + more, next', labels, emitted, lo)
  {
    hide OnceEach, Defs;
    FreshAppend(code, more, lo, next, next');
    DefsAppend(code, more);
  }

  /** A reserved label that was not placed yet can be placed. */
  lemma PlaceCore(code: seq<Inst>, next: nat, labels: map<u32, nat>, emitted: set<u32>, lo: nat, pc: u32)
    requires Labelled(code, next, labels, emitted, lo) && pc in labels && pc !in emitted
    ensures Labelled(code + [Inst(248, [labels[pc]])], next, labels, emitted + {pc}, lo)
  {
    hide OnceEach, Defs;
    var i := Inst(248, [labels[pc]]);
    DefsOne(i);
    DefsAppend(code, [i]);
  }

  lemma ReserveInv(s: S, pc: u32, lo: nat)
    requires LabelInv(s, lo)
    ensures LabelInv(Reserve(s, pc), lo)
  {
    hide Labelled;
    RelabelCore(s.code, s.next, s.labels, s.emitted, lo, pc);
  }

  lemma PutInv(s: S, i: Inst, lo: nat)
    requires LabelInv(s, lo) && NoResult(i.op)
    ensures LabelInv(Put(s, i), lo)
  {
    hide Labelled;
    DefsOne(i);
    AppendCore(s.code, s.next, s.labels, s.emitted, lo, [i], s.next);
  }

  lemma StartBlockInv(cfg: Cfg, s: S, pc: u32, lo: nat)
    requires LabelInv(s, lo)
    ensures LabelInv(StartBlock(cfg, s, pc), lo)
  {
    hide Labelled;
    if pc in cfg.starts && pc !in s.emitted {
      RelabelCore(s.code, s.next, s.labels, s.emitted, lo, pc);
      PlaceCore(s.code, s.next + 1, s.labels[pc := s.next], s.emitted, lo, pc);
    }
  }

  lemma MergeInv(s: S, lo: nat)
    requires LabelInv(s, lo)
    ensures LabelInv(Merge(s), lo)
  {
    hide Labelled;
    if s.stack != [] {
      var code := MergeCode(s.stack[|s.stack| - 1]);
      DefsNone(code);
      AppendCore(s.code, s.next, s.labels, s.emitted, lo, code, s.next);
    }
  }

  lemma BranchToInv(s: S, pc: u32, lo: nat)
    requires LabelInv(s, lo)
    ensures LabelInv(BranchTo(s, pc), lo)
  {
    hide LabelInv;
    ReserveInv(s, pc, lo);
    var s1 := Reserve(s, pc);
    PutInv(s1, Inst(249, [s1.labels[pc]]), lo);
  }

  lemma PushSsyInv(cfg: Cfg, s: S, pc: u32, lo: nat)
    requires LabelInv(s, lo)
    ensures LabelInv(PushSsy(cfg, s, pc), lo)
  {
    hide Labelled;
    if PairAt(cfg.pairs, pc).Some? {
      var q := PairAt(cfg.pairs, pc).value;
      ReserveInv(s, q.syncPc, lo);
      ReserveInv(Reserve(s, q.syncPc), if q.braTarget != 0 then q.braTarget else After(pc), lo);
    }
  }

  lemma ConditionInv(env: Env, s: S, i: IrInst, lo: nat)
    requires LabelInv(s, lo)
    ensures LabelInv(ConditionCode(env, s, i).0, lo)
  {
    hide Labelled;
    if i.guardIndex in s.preds {
      var load := Inst(61, [env.Bool(), s.next, s.preds[i.guardIndex]]);
      DefsOne(load);
      AppendCore(s.code, s.next, s.labels, s.emitted, lo, [load], s.next + 1);
    }
  }

  lemma PlaceInv(s: S, pc: u32, lo: nat)
    requires LabelInv(s, lo) && pc in s.labels && pc !in s.emitted
    ensures LabelInv(Put(s, Inst(248, [s.labels[pc]])).(emitted := s.emitted + {pc}), lo)
  {
    hide Labelled;
    PlaceCore(s.code, s.next, s.labels, s.emitted, lo, pc);
  }

  lemma GuardedBranchInv(env: Env, s: S, i: IrInst, falsePc: u32, lo: nat)
    requires LabelInv(s, lo) && falsePc !in s.emitted
    ensures LabelInv(GuardedBranch(env, s, i, falsePc), lo)
  {
    hide LabelInv, MergeCode, LabelPc;
    MergeInv(s, lo);
    var target := LabelPc(i.src0);
    ReserveInv(Merge(s), target, lo);
    var s1 := Reserve(Merge(s), target);
    ReserveInv(s1, falsePc, lo);
    var s2 := Reserve(s1, falsePc);
    ConditionInv(env, s2, i, lo);
    var (s3, cond) := ConditionCode(env, s2, i);
    var f, t := s2.labels[falsePc], s1.labels[target];
    var branch := if i.guardNegate then Inst(250, [cond, f, t]) else Inst(250, [cond, t, f]);
    PutInv(s3, branch, lo);
    PlaceInv(Put(s3, branch), falsePc, lo);
  }

  // ── The control-flow pass ──────────────────────────────────────────────

  /** Program counters increase, and a fall-through past the end does not wrap around. */
  ghost predicate Increasing(insts: seq<IrInst>) {
    && (forall j, k :: 0 <= j < k < |insts| ==> insts[j].pc < insts[k].pc)
    && (forall k :: 0 <= k < |insts| ==> insts[k].pc + 8 < 0x1_0000_0000)
  }

  /** No label past instruction n has been placed. */
  ghost predicate Behind(emitted: set<u32>, insts: seq<IrInst>, n: nat) {
    n < |insts| ==> forall pc :: pc in emitted ==> pc <= insts[n].pc
  }

  lemma FalsePcAhead(insts: seq<IrInst>, n: nat, emitted: set<u32>)
    requires n < |insts| && Increasing(insts) && Behind(emitted, insts, n)
    ensures FalsePc(insts, n) !in emitted
  {
  }

  lemma DispatchInv(env: Env, vars: map<nat, nat>, insts: seq<IrInst>, cfg: Cfg, n: nat, s: S, lo: nat)
    requires n < |insts| && Increasing(insts) && LabelInv(s, lo) && Behind(s.emitted, insts, n)
    ensures LabelInv(Dispatch(env, vars, insts, cfg, n, s), lo)
  {
    hide Labelled, PushSsy, BranchTo, GuardedBranch, InstOut, Merge, Increasing;
    var i := insts[n];
    if i.opcode == Ctl(SYNC) {
    } else if i.opcode == Ctl(SSY) {
      PushSsyInv(cfg, s, i.pc, lo);
    } else if i.opcode == Ctl(BRA) && !i.guard && i.dest.kind.KNone? {
      MergeInv(s, lo);
      BranchToInv(Merge(s), LabelPc(i.src0), lo);
    } else if i.opcode == Ctl(BRA) && i.guard {
      FalsePcAhead(insts, n, s.emitted);
      GuardedBranchInv(env, s, i, FalsePc(insts, n), lo);
    } else if i.opcode == Ctl(EXIT) || i.opcode == Ctl(RET) {
    } else if i.opcode == Ctl(BREAK) {
      if s.stack != [] {
        BranchToInv(s, s.stack[|s.stack| - 1].syncPc, lo);
      }
    } else if i.opcode == Ctl(CONT) {
      if s.stack != [] && PairAt(cfg.pairs, s.stack[|s.stack| - 1].ssyPc).Some? {
        BranchToInv(s, PairAt(cfg.pairs, s.stack[|s.stack| - 1].ssyPc).value.braTarget, lo);
      }
    } else {
      var o := InstOut(env, vars, s.preds, i, s.next);
      InstFresh(env, vars, s.preds, i, s.next);
      AppendCore(s.code, s.next, s.labels, s.emitted, lo, o.code, o.next);
    }
  }

  lemma MergeEmitted(s: S)
    ensures Merge(s).emitted == s.emitted
  {
  }

  lemma DispatchEmitted(env: Env, vars: map<nat, nat>, insts: seq<IrInst>, cfg: Cfg, n: nat, s: S)
    requires n < |insts|
    ensures var e := Dispatch(env, vars, insts, cfg, n, s).emitted; e == s.emitted || e == s.emitted + {FalsePc(insts, n)}
  {
    hide InstOut, Merge, PairAt, LabelPc, FalsePc, StartBlock;
    assert Merge(s).emitted == s.emitted by { MergeEmitted(s); }
  }

  lemma DispatchBehind(env: Env, vars: map<nat, nat>, insts: seq<IrInst>, cfg: Cfg, n: nat, s: S)
    requires n < |insts| && Increasing(insts) && Behind(s.emitted, insts, n)
    ensures Behind(Dispatch(env, vars, insts, cfg, n, s).emitted, insts, n + 1)
  {
    hide Dispatch;
    DispatchEmitted(env, vars, insts, cfg, n, s);
  }

  lemma FlowStepInv(env: Env, vars: map<nat, nat>, insts: seq<IrInst>, cfg: Cfg, n: nat, s: S, lo: nat)
    requires n < |insts| && Increasing(insts) && LabelInv(s, lo) && Behind(s.emitted, insts, n)
    ensures var t := Dispatch(env, vars, insts, cfg, n, StartBlock(cfg, s, insts[n].pc));
            LabelInv(t, lo) && Behind(t.emitted, insts, n + 1)
  {
    hide Dispatch, LabelInv;
    StartBlockInv(cfg, s, insts[n].pc, lo);
    var s1 := StartBlock(cfg, s, insts[n].pc);
    assert s1.emitted <= s.emitted + {insts[n].pc};
    DispatchInv(env, vars, insts, cfg, n, s1, lo);
    DispatchBehind(env, vars, insts, cfg, n, s1);
  }

  lemma FlowStartInv(insts: seq<IrInst>, s: S)
    requires s.code == [] && s.labels == map[] && s.emitted == if insts == [] then {} else {insts[0].pc}
    ensures LabelInv(s, s.next) && Behind(s.emitted, insts, 0)
  {
  }

  lemma {:induction false} FlowInv(env: Env, vars: map<nat, nat>, insts: seq<IrInst>, cfg: Cfg, n: nat, s: S)
    requires n <= |insts| && Increasing(insts) && s.code == [] && s.labels == map[]
    requires s.emitted == if insts == [] then {} else {insts[0].pc}
    ensures LabelInv(Flow(env, vars, insts, cfg, n, s), s.next)
    ensures Behind(Flow(env, vars, insts, cfg, n, s).emitted, insts, n)
    decreases n
  {
    hide Dispatch, StartBlock, LabelInv, Behind;
    if n == 0 {
      FlowStartInv(insts, s);
    } else {
      FlowInv(env, vars, insts, cfg, n - 1, s);
      FlowStepInv(env, vars, insts, cfg, n - 1, Flow(env, vars, insts, cfg, n - 1, s), s.next);
    }
  }

  // ── The prologue ───────────────────────────────────────────────────────

  lemma HeadDefs(p: Program, ids: Ids)
    ensures Fresh(ModuleHead(p, ids), 1, 2)
  {
    var caps := [Inst(17, [1])] + (if p.usesTextures then [Inst(17, [33])] else []);
    var ext := Inst(11, [ids.Glsl()] + StringWords("GLSL.std.450"));
    var rest := [Inst(14, [0, 1])]
      + [Inst(15, [if p.IsFragment() then 4 else 0, ids.Func()] + StringWords("main") + ids.io)]
      + (if p.IsFragment() then [Inst(16, [ids.Func(), 7])] else []);
    assert ModuleHead(p, ids) == caps + [ext] + rest;
    DefsNone(caps);
    DefsNone(rest);
    DefsOne(ext);
    FreshAppend(caps, [ext], 1, 1, 2);
    FreshAppend(caps + [ext], rest, 1, 2, 2);
  }

  lemma DecorationDefs(p: Program, ids: Ids)
    requires ids.io == IoIds(p)
    ensures Defs(Decorations(p, ids)) == {} && OnceEach(Decorations(p, ids))
  {
    DefsNone(Decorations(p, ids));
  }

  /** Code that defines ids of two intervals, each once. */
  ghost predicate Fresh2(code: seq<Inst>, lo: nat, hi: nat, lo': nat, hi': nat) {
    OnceEach(code) && forall x :: x in Defs(code) ==> lo <= x < hi || lo' <= x < hi'
  }

  lemma Fresh2Append(a: seq<Inst>, b: seq<Inst>, lo: nat, hi: nat, lo': nat, hi': nat, end: nat)
    requires Fresh2(a, lo, hi, lo', hi') && Fresh(b, hi', end) && hi <= lo' <= hi' <= end
    ensures Fresh2(a + b, lo, hi, lo', end)
  {
    DefsAppend(a, b);
  }

  /** Type and constant declarations take consecutive ids, except for the constant-buffer types. */
  lemma JoinTypes(scalars: seq<Inst>, vectors: seq<Inst>, pointers: seq<Inst>, cbuf: seq<Inst>, last: seq<Inst>,
                  constants: seq<Inst>, c: nat, b: nat)
    requires c + 2 <= b && Fresh(scalars, b, b + 5) && Fresh(vectors, b + 5, b + 14) && Fresh(pointers, b + 14, b + 21)
    requires Fresh(cbuf, c, c + 2) && Fresh(last, b + 21, b + 23) && Fresh(constants, b + 23, b + 27)
    ensures Fresh2(scalars + vectors + pointers + cbuf + last + constants, c, c + 2, b, b + 27)
  {
    hide OnceEach, Defs;
    FreshAppend(scalars, vectors, b, b + 5, b + 14);
    FreshAppend(scalars + vectors, pointers, b, b + 14, b + 21);
    DefsAppend(scalars + vectors + pointers, cbuf);
    Fresh2Append(scalars + vectors + pointers + cbuf, last, c, c + 2, b, b + 21, b + 23);
    Fresh2Append(scalars + vectors + pointers + cbuf + last, constants, c, c + 2, b, b + 23, b + 27);
  }

  lemma TypeDefs(ids: Ids)
    requires ids.base > ids.CbufVar()
    ensures Fresh2(BaseTypes(ids) + Constants(ids.base), ids.CbufArray(), ids.CbufVar(), ids.base, ids.base + 27)
  {
    hide OnceEach, Defs, Fresh2;
    var b, c := ids.base, ids.CbufArray();
    Consecutive(ScalarTypes(b), b);
    Consecutive(VectorTypes(b), b + 5);
    Consecutive(PointerTypes(b), b + 14);
    Consecutive(CbufTypes(b, c), c);
    Consecutive(LastTypes(b, ids.CbufStruct()), b + 21);
    Consecutive(Constants(b), b + 23);
    JoinTypes(ScalarTypes(b), VectorTypes(b), PointerTypes(b), CbufTypes(b, c), LastTypes(b, ids.CbufStruct()),
              Constants(b), c, b);
  }

  lemma VariableDefs(p: Program, ids: Ids)
    requires ids.io == IoIds(p) && ids.base == ids.CbufVar() + (if p.usesTextures then 2 else 1)
    requires p.usesTextures ==> ids.tex == ids.CbufVar() + 1
    ensures Fresh2(GlobalVariables(p, ids), 3, ids.CbufArray(), ids.CbufVar(), ids.base)
  {
    hide OnceEach, Defs, IoVariables;
    var cbuf := [Inst(59, [ids.base + 21, ids.CbufVar(), 2])];
    var tex := if p.usesTextures then [Inst(59, [ids.base + 19, ids.tex, 0])] else [];
    IoVariableDefs(p, ids);
    Consecutive(cbuf + tex, ids.CbufVar());
    Associative(IoVariables(p, ids), cbuf, tex);
    DefsAppend(IoVariables(p, ids), cbuf + tex);
  }

  lemma IoVariableDefs(p: Program, ids: Ids)
    requires ids.io == IoIds(p)
    ensures Fresh(IoVariables(p, ids), 3, ids.CbufArray())
  {
    hide OnceEach, Defs;
    Consecutive(IoVariables(p, ids), 3);
  }

  lemma StartDefs(ids: Ids)
    requires ids.base > 2
    ensures Fresh2(FunctionStart(ids), 2, 3, ids.base + 27, ids.base + 29)
  {
    var code := FunctionStart(ids);
    Consecutive(code[..1], ids.base + 27);
    Consecutive(code[1..2], 2);
    Consecutive(code[2..], ids.base + 28);
    DefsAppend(code[..1], code[1..2]);
    DefsAppend(code[..1] + code[1..2], code[2..]);
    assert code == code[..1] + code[1..2] + code[2..];
  }

  /** Five stretches whose ids come from disjoint intervals. */
  lemma JoinGlobals(head: seq<Inst>, deco: seq<Inst>, decls: seq<Inst>, vars: seq<Inst>, start: seq<Inst>, c: nat, b: nat)
    requires 3 <= c && c + 2 < b
    requires Fresh(head, 1, 2) && OnceEach(deco) && Defs(deco) == {}
    requires Fresh2(decls, c, c + 2, b, b + 27) && Fresh2(vars, 3, c, c + 2, b) && Fresh2(start, 2, 3, b + 27, b + 29)
    ensures Fresh(head + deco + decls + vars + start, 1, b + 29)
  {
    hide OnceEach, Defs;
    var a, b3, c4 := head + deco, head + deco + decls, head + deco + decls + vars;
    DefsAppend(head, deco);
    assert Fresh(a, 1, 2);
    DefsAppend(a, decls);
    DefsAppend(b3, vars);
    assert OnceEach(c4) && forall x :: x in Defs(c4) ==> x == 1 || 3 <= x < b + 27;
    DefsAppend(c4, start);
  }

  lemma GlobalDefs(p: Program, stale: nat)
    ensures var ids := IdsOf(p, stale);
            Fresh(Globals(p, ids) + FunctionStart(ids), 1, ids.base + 29)
  {
    hide ModuleHead, Decorations, BaseTypes, Constants, GlobalVariables, FunctionStart, Fresh, Fresh2, OnceEach, Defs;
    var ids := IdsOf(p, stale);
    HeadDefs(p, ids);
    DecorationDefs(p, ids);
    TypeDefs(ids);
    VariableDefs(p, ids);
    StartDefs(ids);
    JoinGlobals(ModuleHead(p, ids), Decorations(p, ids), BaseTypes(ids) + Constants(ids.base),
                GlobalVariables(p, ids), FunctionStart(ids), ids.CbufArray(), ids.base);
    Associative(ModuleHead(p, ids) + Decorations(p, ids), BaseTypes(ids), Constants(ids.base));
  }

  lemma IoFresh(p: Program, env: Env, next: nat)
    requires env.ids.io == IoIds(p)
    ensures Fresh(IoBody(p, env, next), next, next + IoCount(p))
  {
    var code := IoBody(p, env, next);
    if p.IsVertex() {
      FreshPair(code[..2], next);
      FreshPair(code[2..], next + 1);
      FreshAppend(code[..2], code[2..], next, next + 1, next + 2);
      assert code == code[..2] + code[2..];
    } else if p.IsFragment() {
      FreshPair(code, next);
    }
  }

  lemma FreshPair(code: seq<Inst>, id: nat)
    requires |code| == 2 && Result(code[0]) == {id} && Result(code[1]) == {}
    ensures Fresh(code, id, id + 1)
  {
    DefsOne(code[0]);
    DefsOne(code[1]);
    FreshAppend([code[0]], [code[1]], id, id + 1, id + 1);
    assert code == [code[0]] + [code[1]];
  }

  // ── The module ─────────────────────────────────────────────────────────

  lemma JoinModule(front: seq<Inst>, gprs: seq<Inst>, io: seq<Inst>, flow: seq<Inst>, end: seq<Inst>, a: nat, b: nat, c: nat, d: nat)
    requires 1 <= a <= b <= c <= d
    requires Fresh(front, 1, a) && Fresh(gprs, a, b) && Fresh(io, b, c) && Fresh(flow, c, d)
    requires OnceEach(end) && Defs(end) == {}
    ensures Fresh(front + gprs + io + flow + end, 1, d)
  {
    FreshAppend(front, gprs, 1, a, b);
    FreshAppend(front + gprs, io, 1, b, c);
    FreshAppend(front + gprs + io, flow, 1, c, d);
    FreshAppend(front + gprs + io + flow, end, 1, d, d);
  }

  lemma ModuleFresh(p: Program, stale: nat)
    requires Increasing(p.insts)
    ensures Fresh(Module(p, stale), 1, FlowOf(p, stale).next)
  {
    hide Globals, FunctionStart, IoBody, Flow, OnceEach, Defs, CfgOf;
    var ids := IdsOf(p, stale);
    var env := Env(ids);
    var g := GprsOf(p, stale);
    var start := FlowStart(p, g.next + IoCount(p));
    GlobalDefs(p, stale);
    GprsFresh(env.F32FnPtr(), p.insts, env.Body());
    IoFresh(p, env, g.next);
    FlowInv(env, g.vars, p.insts, CfgOf(p.insts), |p.insts|, start);
    DefsNone(Epilogue(p.insts));
    JoinModule(Globals(p, ids) + FunctionStart(ids), g.code, IoBody(p, env, g.next), FlowOf(p, stale).code,
               Epilogue(p.insts), env.Body(), g.next, start.next, FlowOf(p, stale).next);
  }

  /**
   For every program with increasing pcs, whatever the emitter did before, each
   id is the result of at most one instruction and every result id is below the
   bound in word 3.
   */
  lemma ResultIdsUnique(p: Program, stale: nat, bound: nat)
    requires Increasing(p.insts)
    ensures var code := Module(p, stale);
            forall j, k :: 0 <= j < k < |code| ==> Result(code[j]) !! Result(code[k])
    ensures var code := Module(p, stale);
            forall k, x :: 0 <= k < |code| && x in Result(code[k]) ==> 0 < x < ModuleWords(p, stale, bound)[3]
  {
    hide Module, FlowOf, OnceEach, Defs, EncodeAll;
    ModuleFresh(p, stale);
    var code := Module(p, stale);
    OnceEachPairwise(code);
    forall k, x | 0 <= k < |code| && x in Result(code[k]) ensures 0 < x < ModuleWords(p, stale, bound)[3] {
      DefsOfElement(code, k);
    }
  }
}
