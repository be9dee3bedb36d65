/**
 Labels of the control-flow pass: which of the labels that branches and merges
 refer to are placed in the code. The pass gives a block start a fresh label even
 when one was reserved for it, so a reference forward is kept only where the
 target directly follows a guarded branch.
 */
module LabelPlacement {
  import opened Common
  import opened Sequences
  import opened Spirv
  import opened ShaderIr
  import opened EmitterSpec
  import opened EmitterIds
  import EmitterLayout

  // ── References in code ─────────────────────────────────────────────────

  /** The labels an instruction refers to: branches and merges. */
  function Targets(i: Inst): seq<nat> {
    if i.op == 249 && |i.args| >= 1 then [i.args[0]]
    else if i.op == 250 && |i.args| >= 3 then [i.args[1], i.args[2]]
    else if i.op == 247 && |i.args| >= 1 then [i.args[0]]
    else if i.op == 246 && |i.args| >= 2 then [i.args[0], i.args[1]]
    else []
  }

  function Referenced(code: seq<Inst>): seq<nat> {
    if code == [] then [] else Referenced(code[..|code| - 1]) + Targets(code[|code| - 1])
  }

  /** The labels that stand in the code. */
  function Labels(code: seq<Inst>): set<nat> {
    if code == [] then {}
    else
      var last := code[|code| - 1];
      Labels(code[..|code| - 1]) + if last.op == 248 && |last.args| > 0 then {last.args[0]} else {}
  }

  /** Every label referred to is placed. */
  predicate AllPlaced(code: seq<Inst>) {
    forall x :: x in Referenced(code) ==> x in Labels(code)
  }

  lemma {:induction false} CodeAppend(a: seq<Inst>, b: seq<Inst>)
    ensures Referenced(a + b) == Referenced(a) + Referenced(b)
    ensures Labels(a + b) == Labels(a) + Labels(b)
  {
    if b == [] {
      NothingLast(a);
      NothingLast(Referenced(a));
    } else {
      var last := |b| - 1;
      CodeAppend(a, b[..last]);
      assert (a + b)[..|a + b| - 1] == a + b[..last];
      Associative(Referenced(a), Referenced(b[..last]), Targets(b[last]));
    }
  }

  lemma CodeOne(i: Inst)
    ensures Referenced([i]) == Targets(i)
    ensures Labels([i]) == if i.op == 248 && |i.args| > 0 then {i.args[0]} else {}
  {
    assert [i][..0] == [];
  }

  lemma {:induction false} LabelsDefined(code: seq<Inst>)
    ensures Labels(code) <= Defs(code)
  {
    if code != [] {
      LabelsDefined(code[..|code| - 1]);
    }
  }

  /** Neither labels nor references to them. */
  predicate NoFlow(code: seq<Inst>) {
    forall k :: 0 <= k < |code| ==> !(246 <= code[k].op <= 250)
  }

  lemma {:induction false} NoFlowNothing(code: seq<Inst>)
    requires NoFlow(code)
    ensures Referenced(code) == [] && Labels(code) == {}
  {
    if code != [] {
      NoFlowNothing(code[..|code| - 1]);
    }
  }

  lemma {:induction false} BodyNoFlow(env: Env, base: nat, k: nat, body: seq<Micro>)
    requires ValueSteps(body)
    ensures NoFlow(BodyCode(env, base, k, body))
    decreases |body|
  {
    if body != [] {
      BodyNoFlow(env, base, k + 1, body[1..]);
    }
  }

  lemma {:induction false} LoadNoFlow(env: Env, vars: map<nat, nat>, i: IrInst, n: nat, next: nat)
    requires n <= 3
    ensures NoFlow(LoadCode(env, vars, i, n, next))
  {
    if n > 0 {
      LoadNoFlow(env, vars, i, n - 1, next);
    }
  }

  lemma InstNoFlow(env: Env, vars: map<nat, nat>, preds: map<nat, nat>, i: IrInst, next: nat)
    ensures NoFlow(InstOut(env, vars, preds, i, next).code)
  {
    hide RecipeOf, LoadCode, BodyCode, RefId;
    if i.opcode != Ctl(KIL) && RecipeOf(i, env.ids.tex).Some? {
      var r := RecipeOf(i, env.ids.tex).value;
      LoadNoFlow(env, vars, i, r.loads, next);
      BodyNoFlow(env, next, r.loads, r.body);
    }
  }

  // ── References in the program ──────────────────────────────────────────

  /** A reference to the block at pc, whose label is taken at instruction at. */
  datatype Mention = Mention(pc: u32, at: nat)

  /** An SSY whose SYNC was not reached: its instruction, its pair, and whether its merge is still to come. */
  datatype Nested = Nested(at: nat, pair: Pair, pending: bool)

  predicate PlainBranch(i: IrInst) { i.opcode == Ctl(BRA) && !i.guard && i.dest.kind.KNone? }

  predicate GuardedBra(i: IrInst) { i.opcode == Ctl(BRA) && i.guard }

  function Settled(nest: seq<Nested>): seq<Nested> {
    if nest == [] then [] else nest[|nest| - 1 := nest[|nest| - 1].(pending := false)]
  }

  /** The open SSYs behind an instruction. */
  function NestAfter(insts: seq<IrInst>, cfg: Cfg, n: nat, nest: seq<Nested>): seq<Nested>
    requires n < |insts|
  {
    var i := insts[n];
    if i.opcode == Ctl(SYNC) then
      if nest != [] && nest[|nest| - 1].pair.syncPc == i.pc then nest[..|nest| - 1] else nest
    else if i.opcode == Ctl(SSY) then
      match PairAt(cfg.pairs, i.pc)
      case None => nest
      case Some(q) => nest + [Nested(n, q, true)]
    else if PlainBranch(i) || GuardedBra(i) then Settled(nest)
    else nest
  }

  function Nest(insts: seq<IrInst>, cfg: Cfg, n: nat): seq<Nested>
    requires n <= |insts|
  {
    if n == 0 then [] else NestAfter(insts, cfg, n - 1, Nest(insts, cfg, n - 1))
  }

  function ContinuePc(q: Pair): u32 { if q.braTarget != 0 then q.braTarget else After(q.ssyPc) }

  /** The references of a deferred merge. */
  function MergeMentions(nest: seq<Nested>): seq<Mention> {
    if nest == [] then []
    else
      var top := nest[|nest| - 1];
      if !top.pending then []
      else if top.pair.kind.Selection? then [Mention(top.pair.syncPc, top.at)]
      else if top.pair.kind.Loop? then [Mention(top.pair.syncPc, top.at), Mention(ContinuePc(top.pair), top.at)]
      else []
  }

  /** The references of one instruction. */
  function MentionsAt(insts: seq<IrInst>, cfg: Cfg, n: nat, nest: seq<Nested>): seq<Mention>
    requires n < |insts|
  {
    var i := insts[n];
    if PlainBranch(i) then MergeMentions(nest) + [Mention(LabelPc(i.src0), n)]
    else if GuardedBra(i) then
      var t, f := Mention(LabelPc(i.src0), n), Mention(FalsePc(insts, n), n);
      MergeMentions(nest) + if i.guardNegate then [f, t] else [t, f]
    else if i.opcode == Ctl(BREAK) && nest != [] then [Mention(nest[|nest| - 1].pair.syncPc, n)]
    else if i.opcode == Ctl(CONT) && nest != [] && nest[|nest| - 1].pair.kind.Loop? then
      match PairAt(cfg.pairs, nest[|nest| - 1].pair.ssyPc)
      case None => []
      case Some(q) => [Mention(q.braTarget, n)]
    else []
  }

  function Mentions(insts: seq<IrInst>, cfg: Cfg, n: nat): seq<Mention>
    requires n <= |insts|
  {
    if n == 0 then [] else Mentions(insts, cfg, n - 1) + MentionsAt(insts, cfg, n - 1, Nest(insts, cfg, n - 1))
  }

  /** One of the first n instructions is a guarded branch that falls through to pc. */
  ghost predicate FallsTo(insts: seq<IrInst>, pc: u32, n: nat)
    requires n <= |insts|
  {
    exists m :: 0 <= m < n && GuardedBra(insts[m]) && FalsePc(insts, m) == pc
  }

  /** pc is a block start and one of the first n instructions. */
  ghost predicate StartsBy(insts: seq<IrInst>, starts: set<u32>, pc: u32, n: nat) {
    pc in starts && exists k :: 0 <= k < n && k < |insts| && insts[k].pc == pc
  }

  /**
   Where a reference finds its label: the block follows a guarded branch directly,
   or it is a block start already passed, other than the first instruction.
   */
  ghost predicate Anchored(insts: seq<IrInst>, cfg: Cfg, m: Mention, n: nat)
    requires n <= |insts| && insts != []
  {
    FallsTo(insts, m.pc, n) || (m.pc != insts[0].pc && StartsBy(insts, cfg.starts, m.pc, m.at + 1))
  }

  // ── The fate of a label ────────────────────────────────────────────────

  /** The label stands for a pc that may still be placed. */
  predicate Waiting(s: S, l: nat, pc: u32) {
    pc in s.labels && s.labels[pc] == l && pc !in s.emitted
  }

  /** The label was not placed and will not be. */
  ghost predicate Dead(s: S, l: nat) {
    l < s.next && l !in Defs(s.code) && forall pc :: pc in s.labels && s.labels[pc] == l ==> pc in s.emitted
  }

  ghost predicate NeverFalls(insts: seq<IrInst>, pc: u32, n: nat) {
    forall m :: n <= m < |insts| && GuardedBra(insts[m]) ==> FalsePc(insts, m) != pc
  }

  /** After n instructions the label of a reference is placed exactly when the reference is anchored so far. */
  ghost predicate Known(s: S, insts: seq<IrInst>, cfg: Cfg, n: nat, l: nat, m: Mention, lo: nat)
    requires n <= |insts| && insts != []
  {
    && lo <= l
    && if Anchored(insts, cfg, m, n) then l in Labels(s.code)
       else Waiting(s, l, m.pc) || (Dead(s, l) && NeverFalls(insts, m.pc, n))
  }

  /** Code and labels only grow, and nothing is placed under an earlier id. */
  ghost predicate Grows(s: S, t: S) {
    && s.next <= t.next && s.emitted == t.emitted && Labels(s.code) <= Labels(t.code)
    && (forall x :: x < s.next && x in Defs(t.code) ==> x in Defs(s.code))
    && (forall pc :: pc in s.labels ==> pc in t.labels && t.labels[pc] == s.labels[pc])
    && (forall pc :: pc in t.labels && pc !in s.labels ==> s.next <= t.labels[pc] < t.next && t.labels[pc] !in Defs(t.code))
  }

  lemma GrowKnown(s: S, t: S, insts: seq<IrInst>, cfg: Cfg, n: nat, l: nat, m: Mention, lo: nat)
    requires n <= |insts| && insts != [] && Known(s, insts, cfg, n, l, m, lo) && Grows(s, t)
    ensures Known(t, insts, cfg, n, l, m, lo)
  {
    hide Anchored, Labels, Defs, NeverFalls;
  }

  lemma GrowReserve(s: S, pc: u32, lo: nat)
    requires LabelInv(s, lo)
    ensures Grows(s, Reserve(s, pc))
  {
    hide OnceEach, Defs;
  }

  lemma GrowPut(s: S, i: Inst)
    requires NoResult(i.op)
    ensures Grows(s, Put(s, i)) && Referenced(Put(s, i).code) == Referenced(s.code) + Targets(i)
  {
    DefsOne(i);
    DefsAppend(s.code, [i]);
    CodeOne(i);
    CodeAppend(s.code, [i]);
  }

  /** The code of an instruction that is no branch. */
  lemma GrowInst(s: S, o: Out, preds: map<nat, nat>)
    requires Fresh(o.code, s.next, o.next) && s.next <= o.next && NoFlow(o.code)
    ensures var t := s.(code := s.code + o.code, next := o.next, preds := preds);
            Grows(s, t) && Referenced(t.code) == Referenced(s.code)
  {
    NoFlowNothing(o.code);
    DefsAppend(s.code, o.code);
    CodeAppend(s.code, o.code);
  }

  function MergeIds(e: SsyEntry): seq<nat> {
    if e.merge != 0 && e.kind.Selection? then [e.merge]
    else if e.merge != 0 && e.kind.Loop? then [e.merge, e.cont]
    else []
  }

  lemma GrowMerge(s: S)
    ensures Grows(s, Merge(s))
    ensures Referenced(Merge(s).code) == Referenced(s.code) + if s.stack == [] then [] else MergeIds(s.stack[|s.stack| - 1])
  {
    if s.stack != [] {
      hide Referenced, Labels, Defs, OnceEach, MergeCode;
      var e := s.stack[|s.stack| - 1];
      MergeNothing(e);
      DefsAppend(s.code, MergeCode(e));
      CodeAppend(s.code, MergeCode(e));
    }
  }

  lemma MergeNothing(e: SsyEntry)
    ensures Defs(MergeCode(e)) == {} && Labels(MergeCode(e)) == {} && Referenced(MergeCode(e)) == MergeIds(e)
  {
    var code := MergeCode(e);
    DefsNone(code);
    if code != [] {
      assert code == [code[0]];
      CodeOne(code[0]);
    }
  }

  lemma GrowCondition(env: Env, s: S, i: IrInst, lo: nat)
    requires LabelInv(s, lo)
    ensures Grows(s, ConditionCode(env, s, i).0)
    ensures Referenced(ConditionCode(env, s, i).0.code) == Referenced(s.code)
  {
    hide OnceEach, Defs, Referenced, Labels;
    if i.guardIndex in s.preds {
      var load := Inst(61, [env.Bool(), s.next, s.preds[i.guardIndex]]);
      DefsOne(load);
      DefsAppend(s.code, [load]);
      CodeOne(load);
      CodeAppend(s.code, [load]);
    }
  }

  // ── The invariant of the pass ──────────────────────────────────────────

  /** The labels placed so far belong to the block starts among the first k instructions and to n instructions' fall-throughs. */
  ghost predicate EmittedOk(s: S, insts: seq<IrInst>, cfg: Cfg, n: nat, k: nat)
    requires n <= |insts| && insts != []
  {
    forall pc :: pc in s.emitted <==> pc == insts[0].pc || FallsTo(insts, pc, n) || StartsBy(insts, cfg.starts, pc, k)
  }

  /** Every emitted pc has its label in the code, except that the first instruction has none there. */
  ghost predicate LabelsOk(s: S, first: u32) {
    && (forall pc :: pc in s.emitted && pc != first ==> pc in s.labels && s.labels[pc] in Labels(s.code))
    && (first in s.labels ==> s.labels[first] !in Defs(s.code))
  }

  ghost predicate Core(s: S, insts: seq<IrInst>, cfg: Cfg, n: nat, k: nat, lo: nat)
    requires n <= |insts|
  {
    insts != [] && lo > 0 && LabelInv(s, lo) && EmittedOk(s, insts, cfg, n, k) && LabelsOk(s, insts[0].pc)
  }

  ghost predicate RefsOk(s: S, insts: seq<IrInst>, cfg: Cfg, n: nat, refs: seq<nat>, ms: seq<Mention>, lo: nat)
    requires n <= |insts| && insts != []
  {
    |refs| == |ms| && forall k :: 0 <= k < |ms| ==> Known(s, insts, cfg, n, refs[k], ms[k], lo)
  }

  ghost predicate EntryOk(s: S, insts: seq<IrInst>, cfg: Cfg, n: nat, e: SsyEntry, q: Nested, lo: nat)
    requires n <= |insts| && insts != []
  {
    && e.ssyPc == q.pair.ssyPc && e.syncPc == q.pair.syncPc && e.kind == q.pair.kind && (q.pending <==> e.merge != 0)
    && (q.pending ==> Known(s, insts, cfg, n, e.merge, Mention(q.pair.syncPc, q.at), lo))
    && (q.pending && e.kind.Loop? ==> Known(s, insts, cfg, n, e.cont, Mention(ContinuePc(q.pair), q.at), lo))
  }

  ghost predicate NestOk(s: S, insts: seq<IrInst>, cfg: Cfg, n: nat, stack: seq<SsyEntry>, nest: seq<Nested>, lo: nat)
    requires n <= |insts| && insts != []
  {
    |stack| == |nest| && forall j :: 0 <= j < |nest| ==> EntryOk(s, insts, cfg, n, stack[j], nest[j], lo)
  }

  /** Every reference in the code and every open SSY stands for a reference of the program. */
  ghost predicate Sound(s: S, insts: seq<IrInst>, cfg: Cfg, n: nat, k: nat, nest: seq<Nested>, ms: seq<Mention>, lo: nat)
    requires n <= |insts|
  {
    && Core(s, insts, cfg, n, k, lo)
    && RefsOk(s, insts, cfg, n, Referenced(s.code), ms, lo)
    && NestOk(s, insts, cfg, n, s.stack, nest, lo)
  }

  lemma RefsAppend(s: S, insts: seq<IrInst>, cfg: Cfg, n: nat, a: seq<nat>, b: seq<nat>, ms: seq<Mention>, ns: seq<Mention>, lo: nat)
    requires n <= |insts| && insts != [] && RefsOk(s, insts, cfg, n, a, ms, lo) && RefsOk(s, insts, cfg, n, b, ns, lo)
    ensures RefsOk(s, insts, cfg, n, a + b, ms + ns, lo)
  {
    hide Known;
  }

  lemma GrowRefs(s: S, t: S, insts: seq<IrInst>, cfg: Cfg, n: nat, refs: seq<nat>, ms: seq<Mention>, lo: nat)
    requires n <= |insts| && insts != [] && RefsOk(s, insts, cfg, n, refs, ms, lo) && Grows(s, t)
    ensures RefsOk(t, insts, cfg, n, refs, ms, lo)
  {
    hide Known, Grows;
    forall k | 0 <= k < |ms| ensures Known(t, insts, cfg, n, refs[k], ms[k], lo) {
      GrowKnown(s, t, insts, cfg, n, refs[k], ms[k], lo);
    }
  }

  lemma GrowNest(s: S, t: S, insts: seq<IrInst>, cfg: Cfg, n: nat, stack: seq<SsyEntry>, nest: seq<Nested>, lo: nat)
    requires n <= |insts| && insts != [] && NestOk(s, insts, cfg, n, stack, nest, lo) && Grows(s, t)
    ensures NestOk(t, insts, cfg, n, stack, nest, lo)
  {
    hide Known, Grows;
    forall j | 0 <= j < |nest| ensures EntryOk(t, insts, cfg, n, stack[j], nest[j], lo) {
      var e, q := stack[j], nest[j];
      assert EntryOk(s, insts, cfg, n, e, q, lo);
      if q.pending {
        GrowKnown(s, t, insts, cfg, n, e.merge, Mention(q.pair.syncPc, q.at), lo);
        if e.kind.Loop? {
          GrowKnown(s, t, insts, cfg, n, e.cont, Mention(ContinuePc(q.pair), q.at), lo);
        }
      }
    }
  }

  lemma GrowCore(s: S, t: S, insts: seq<IrInst>, cfg: Cfg, n: nat, k: nat, lo: nat)
    requires n <= |insts| && Core(s, insts, cfg, n, k, lo) && Grows(s, t) && LabelInv(t, lo)
    ensures Core(t, insts, cfg, n, k, lo)
  {
    hide Defs, OnceEach, Labels, FallsTo, StartsBy;
  }

  /** What does not go on to instruction n + 1 as a fall-through is known there as it is known here. */
  lemma NextKnown(s: S, insts: seq<IrInst>, cfg: Cfg, n: nat, l: nat, m: Mention, lo: nat)
    requires n < |insts| && !GuardedBra(insts[n]) && Known(s, insts, cfg, n, l, m, lo)
    ensures Known(s, insts, cfg, n + 1, l, m, lo)
  {
    hide Waiting, Dead, StartsBy;
    assert FallsTo(insts, m.pc, n) <==> FallsTo(insts, m.pc, n + 1);
  }

  lemma NextIndex(s: S, insts: seq<IrInst>, cfg: Cfg, n: nat, k: nat, nest: seq<Nested>, ms: seq<Mention>, lo: nat)
    requires n < |insts| && !GuardedBra(insts[n]) && Sound(s, insts, cfg, n, k, nest, ms, lo)
    ensures Sound(s, insts, cfg, n + 1, k, nest, ms, lo)
  {
    hide Known, LabelInv, LabelsOk, StartsBy;
    forall j | 0 <= j < |ms| ensures Known(s, insts, cfg, n + 1, Referenced(s.code)[j], ms[j], lo) {
      NextKnown(s, insts, cfg, n, Referenced(s.code)[j], ms[j], lo);
    }
    forall j | 0 <= j < |nest| ensures EntryOk(s, insts, cfg, n + 1, s.stack[j], nest[j], lo) {
      var e, q := s.stack[j], nest[j];
      assert EntryOk(s, insts, cfg, n, e, q, lo);
      if q.pending {
        NextKnown(s, insts, cfg, n, e.merge, Mention(q.pair.syncPc, q.at), lo);
        if e.kind.Loop? {
          NextKnown(s, insts, cfg, n, e.cont, Mention(ContinuePc(q.pair), q.at), lo);
        }
      }
    }
    forall pc ensures FallsTo(insts, pc, n) <==> FallsTo(insts, pc, n + 1) {
    }
  }

  /** A label taken now: placed if its pc is, never to be if it is the first instruction's, and else still open. */
  lemma TakeKnown(s: S, insts: seq<IrInst>, cfg: Cfg, n: nat, pc: u32, lo: nat)
    requires n < |insts| && Increasing(insts) && Core(s, insts, cfg, n, n + 1, lo) && pc in s.labels
    ensures Known(s, insts, cfg, n, s.labels[pc], Mention(pc, n), lo)
  {
    hide Defs, OnceEach, Labels, StartsBy;
    FirstNeverFalls(insts);
    if pc == insts[0].pc {
      assert Dead(s, s.labels[pc]);
    }
  }

  /** No guarded branch falls through to the first instruction. */
  lemma FirstNeverFalls(insts: seq<IrInst>)
    requires insts != [] && Increasing(insts)
    ensures NeverFalls(insts, insts[0].pc, 0) && !FallsTo(insts, insts[0].pc, |insts|)
    ensures forall n: nat :: n <= |insts| ==> !FallsTo(insts, insts[0].pc, n)
  {
    forall m | 0 <= m < |insts| ensures FalsePc(insts, m) != insts[0].pc {
    }
  }

  // ── A block start ──────────────────────────────────────────────────────

  /** What the label of a block start changes. */
  lemma StartEffect(cfg: Cfg, s: S, pc: u32, lo: nat)
    requires LabelInv(s, lo) && pc in cfg.starts && pc !in s.emitted
    ensures var t := StartBlock(cfg, s, pc);
            && t.next == s.next + 1 && t.labels == s.labels[pc := s.next] && t.emitted == s.emitted + {pc}
            && Labels(t.code) == Labels(s.code) + {s.next} && Defs(t.code) == Defs(s.code) + {s.next}
    ensures s.next !in Defs(s.code)
  {
    hide LabelInv, Labels, Defs, Referenced;
    LabelAdded(s.code, s.next);
    NextUndefined(s, lo);
  }

  lemma LabelAdded(code: seq<Inst>, l: nat)
    ensures var more := code + [Inst(248, [l])];
            Labels(more) == Labels(code) + {l} && Defs(more) == Defs(code) + {l} && Referenced(more) == Referenced(code)
  {
    hide Labels, Defs, Referenced, OnceEach;
    CodeOne(Inst(248, [l]));
    CodeAppend(code, [Inst(248, [l])]);
    DefsOne(Inst(248, [l]));
    DefsAppend(code, [Inst(248, [l])]);
    NothingLast(Referenced(code));
  }

  lemma NextUndefined(s: S, lo: nat)
    requires LabelInv(s, lo)
    ensures s.next !in Defs(s.code)
  {
    hide OnceEach, Defs;
  }

  /** A label in use is below the next id, belongs to one pc, and is in the code only if that pc is emitted. */
  lemma LabelsApart(s: S, lo: nat)
    requires LabelInv(s, lo)
    ensures forall pc :: pc in s.labels ==> s.labels[pc] < s.next
    ensures forall pc, q :: pc in s.labels && q in s.labels && pc != q ==> s.labels[pc] != s.labels[q]
    ensures forall pc :: pc in s.labels && s.labels[pc] in Defs(s.code) ==> pc in s.emitted
  {
  }

  /** A block start takes a fresh label, so a label reserved for it before is lost. */
  lemma StartKnown(s: S, insts: seq<IrInst>, cfg: Cfg, n: nat, l: nat, m: Mention, lo: nat)
    requires n < |insts| && Increasing(insts) && LabelInv(s, lo) && Known(s, insts, cfg, n, l, m, lo)
    ensures Known(StartBlock(cfg, s, insts[n].pc), insts, cfg, n, l, m, lo)
  {
    hide Anchored, LabelInv, Labels, Defs, StartBlock;
    var pc := insts[n].pc;
    var t := StartBlock(cfg, s, pc);
    if pc in cfg.starts && pc !in s.emitted {
      StartEffect(cfg, s, pc, lo);
      LabelsApart(s, lo);
      NeverBack(insts, n);
      hide NeverFalls;
      if !Anchored(insts, cfg, m, n) {
        if Waiting(s, l, m.pc) && m.pc != pc {
          assert Waiting(t, l, m.pc);
        } else {
          assert Dead(t, l);
        }
      }
    } else {
      assert t == s by { StartIdle(cfg, s, pc); }
    }
  }

  lemma StartIdle(cfg: Cfg, s: S, pc: u32)
    requires pc !in cfg.starts || pc in s.emitted
    ensures StartBlock(cfg, s, pc) == s
  {
  }

  /** Fall-throughs lie ahead. */
  lemma NeverBack(insts: seq<IrInst>, n: nat)
    requires n < |insts| && Increasing(insts)
    ensures NeverFalls(insts, insts[n].pc, n)
  {
  }

  lemma StartCore(s: S, insts: seq<IrInst>, cfg: Cfg, n: nat, lo: nat)
    requires n < |insts| && Increasing(insts) && Core(s, insts, cfg, n, n, lo)
    ensures Core(StartBlock(cfg, s, insts[n].pc), insts, cfg, n, n + 1, lo)
  {
    hide LabelInv, FallsTo, StartsBy, Labels, Defs, StartBlock;
    var pc := insts[n].pc;
    StartBlockInv(cfg, s, pc, lo);
    forall q: u32 ensures StartsBy(insts, cfg.starts, q, n + 1) <==> StartsBy(insts, cfg.starts, q, n) || (q == pc && pc in cfg.starts) {
      StartsNext(insts, cfg.starts, q, n);
    }
    if pc in cfg.starts && pc !in s.emitted {
      StartEffect(cfg, s, pc, lo);
      LabelsApart(s, lo);
    } else {
      StartIdle(cfg, s, pc);
    }
  }

  lemma StartsNext(insts: seq<IrInst>, starts: set<u32>, q: u32, n: nat)
    requires n < |insts|
    ensures StartsBy(insts, starts, q, n + 1) <==> StartsBy(insts, starts, q, n) || (q == insts[n].pc && insts[n].pc in starts)
  {
    if q == insts[n].pc && q in starts {
      assert 0 <= n < n + 1 && insts[n].pc == q;
    }
  }

  lemma StartStep(s: S, insts: seq<IrInst>, cfg: Cfg, n: nat, nest: seq<Nested>, ms: seq<Mention>, lo: nat)
    requires n < |insts| && Increasing(insts) && Sound(s, insts, cfg, n, n, nest, ms, lo)
    ensures Sound(StartBlock(cfg, s, insts[n].pc), insts, cfg, n, n + 1, nest, ms, lo)
  {
    hide Known, LabelInv, EmittedOk, LabelsOk, Increasing;
    var t := StartBlock(cfg, s, insts[n].pc);
    StartCore(s, insts, cfg, n, lo);
    StartRefs(cfg, s, insts[n].pc);
    var refs := Referenced(s.code);
    forall j | 0 <= j < |ms| ensures Known(t, insts, cfg, n, refs[j], ms[j], lo) {
      StartKnown(s, insts, cfg, n, refs[j], ms[j], lo);
    }
    forall j | 0 <= j < |nest| ensures EntryOk(t, insts, cfg, n, s.stack[j], nest[j], lo) {
      var e, q := s.stack[j], nest[j];
      assert EntryOk(s, insts, cfg, n, e, q, lo);
      if q.pending {
        StartKnown(s, insts, cfg, n, e.merge, Mention(q.pair.syncPc, q.at), lo);
        if e.kind.Loop? {
          StartKnown(s, insts, cfg, n, e.cont, Mention(ContinuePc(q.pair), q.at), lo);
        }
      }
    }
  }

  lemma StartRefs(cfg: Cfg, s: S, pc: u32)
    ensures var t := StartBlock(cfg, s, pc); Referenced(t.code) == Referenced(s.code) && t.stack == s.stack
  {
    LabelAdded(s.code, s.next);
  }

  // ── One instruction ────────────────────────────────────────────────────

  /** A change that only grows keeps everything; references it adds are accounted for. */
  lemma Move(s: S, t: S, insts: seq<IrInst>, cfg: Cfg, n: nat, k: nat, nest: seq<Nested>, ms: seq<Mention>,
             more: seq<nat>, ns: seq<Mention>, lo: nat)
    requires n <= |insts| && Sound(s, insts, cfg, n, k, nest, ms, lo) && Grows(s, t) && LabelInv(t, lo) && t.stack == s.stack
    requires Referenced(t.code) == Referenced(s.code) + more && RefsOk(t, insts, cfg, n, more, ns, lo)
    ensures Sound(t, insts, cfg, n, k, nest, ms + ns, lo)
  {
    hide Grows, LabelInv, EmittedOk, LabelsOk, RefsOk, NestOk, Core;
    assert insts != [] by { CoreSome(s, insts, cfg, n, k, lo); }
    GrowCore(s, t, insts, cfg, n, k, lo);
    GrowRefs(s, t, insts, cfg, n, Referenced(s.code), ms, lo);
    GrowNest(s, t, insts, cfg, n, s.stack, nest, lo);
    RefsAppend(t, insts, cfg, n, Referenced(s.code), more, ms, ns, lo);
  }

  lemma CoreSome(s: S, insts: seq<IrInst>, cfg: Cfg, n: nat, k: nat, lo: nat)
    requires n <= |insts| && Core(s, insts, cfg, n, k, lo)
    ensures insts != []
  {
  }

  /** Reserving a label: it is known from then on. */
  lemma ReserveStep(s: S, insts: seq<IrInst>, cfg: Cfg, n: nat, nest: seq<Nested>, ms: seq<Mention>, pc: u32, lo: nat)
    requires n < |insts| && Increasing(insts) && Sound(s, insts, cfg, n, n + 1, nest, ms, lo)
    ensures var t := Reserve(s, pc);
            && Sound(t, insts, cfg, n, n + 1, nest, ms, lo) && pc in t.labels
            && Known(t, insts, cfg, n, t.labels[pc], Mention(pc, n), lo)
  {
    hide Known, LabelInv, EmittedOk, LabelsOk, RefsOk, NestOk, Increasing, Grows;
    var t := Reserve(s, pc);
    ReserveInv(s, pc, lo);
    GrowReserve(s, pc, lo);
    NothingKnown(t, insts, cfg, n, lo);
    NothingLast(ms);
    NothingLast(Referenced(s.code));
    Move(s, t, insts, cfg, n, n + 1, nest, ms, [], [], lo);
    TakeKnown(t, insts, cfg, n, pc, lo);
  }

  lemma NothingKnown(s: S, insts: seq<IrInst>, cfg: Cfg, n: nat, lo: nat)
    requires n <= |insts| && insts != []
    ensures RefsOk(s, insts, cfg, n, [], [], lo)
  {
  }

  lemma OneKnown(s: S, insts: seq<IrInst>, cfg: Cfg, n: nat, l: nat, m: Mention, lo: nat)
    requires n <= |insts| && insts != [] && Known(s, insts, cfg, n, l, m, lo)
    ensures RefsOk(s, insts, cfg, n, [l], [m], lo)
  {
  }

  /** The deferred merge. */
  lemma MergeStep(s: S, insts: seq<IrInst>, cfg: Cfg, n: nat, k: nat, nest: seq<Nested>, ms: seq<Mention>, lo: nat)
    requires n <= |insts| && Sound(s, insts, cfg, n, k, nest, ms, lo)
    ensures Sound(Merge(s), insts, cfg, n, k, Settled(nest), ms + MergeMentions(nest), lo)
  {
    hide LabelInv, EmittedOk, LabelsOk, Grows, Known, MergeCode;
    GrowMerge(s);
    MergeInv(s, lo);
    var t, t' := Merge(s), Merge(s).(stack := s.stack);
    SameGrows(s, t, s.stack);
    if s.stack == [] {
      NothingLast(ms);
    } else {
      var e, q := s.stack[|s.stack| - 1], nest[|nest| - 1];
      assert EntryOk(s, insts, cfg, n, e, q, lo);
      assert RefsOk(s, insts, cfg, n, MergeIds(e), MergeMentions(nest), lo);
      GrowRefs(s, t', insts, cfg, n, MergeIds(e), MergeMentions(nest), lo);
      assert LabelInv(t', lo) by { SameInv(t, s.stack, lo); }
      Move(s, t', insts, cfg, n, k, nest, ms, MergeIds(e), MergeMentions(nest), lo);
      SameSound(t', t.stack, insts, cfg, n, k, nest, Settled(nest), ms + MergeMentions(nest), lo);
      assert t'.(stack := t.stack) == t;
    }
  }

  lemma SameGrows(s: S, t: S, stack: seq<SsyEntry>)
    requires Grows(s, t)
    ensures Grows(s, t.(stack := stack))
  {
  }

  lemma SameInv(t: S, stack: seq<SsyEntry>, lo: nat)
    requires LabelInv(t, lo)
    ensures LabelInv(t.(stack := stack), lo)
  {
  }

  /** Another stack whose open entries are entries of the first. */
  lemma SameSound(s: S, stack: seq<SsyEntry>, insts: seq<IrInst>, cfg: Cfg, n: nat, k: nat, nest: seq<Nested>, nest': seq<Nested>,
                  ms: seq<Mention>, lo: nat)
    requires n <= |insts| && Sound(s, insts, cfg, n, k, nest, ms, lo) && |stack| == |nest'|
    requires forall j :: 0 <= j < |stack| ==> EntryOk(s, insts, cfg, n, stack[j], nest'[j], lo)
    ensures Sound(s.(stack := stack), insts, cfg, n, k, nest', ms, lo)
  {
    hide Anchored, NeverFalls, EmittedOk, LabelsOk;
    var t := s.(stack := stack);
    forall l, m | Known(s, insts, cfg, n, l, m, lo) ensures Known(t, insts, cfg, n, l, m, lo) {
    }
    assert EmittedOk(t, insts, cfg, n, k) && LabelsOk(t, insts[0].pc) by { SameFacts(s, stack, insts, cfg, n, k); }
  }

  lemma SameFacts(s: S, stack: seq<SsyEntry>, insts: seq<IrInst>, cfg: Cfg, n: nat, k: nat)
    requires n <= |insts| && insts != [] && EmittedOk(s, insts, cfg, n, k) && LabelsOk(s, insts[0].pc)
    ensures EmittedOk(s.(stack := stack), insts, cfg, n, k) && LabelsOk(s.(stack := stack), insts[0].pc)
  {
  }

  /** An instruction that refers to one known label. */
  lemma PutStep(s: S, i: Inst, insts: seq<IrInst>, cfg: Cfg, n: nat, k: nat, nest: seq<Nested>, ms: seq<Mention>,
                ns: seq<Mention>, lo: nat)
    requires n <= |insts| && Sound(s, insts, cfg, n, k, nest, ms, lo) && NoResult(i.op)
    requires insts != [] && RefsOk(s, insts, cfg, n, Targets(i), ns, lo)
    ensures Sound(Put(s, i), insts, cfg, n, k, nest, ms + ns, lo)
  {
    hide LabelInv, EmittedOk, LabelsOk, Grows, RefsOk, NestOk;
    GrowPut(s, i);
    PutInv(s, i, lo);
    GrowRefs(s, Put(s, i), insts, cfg, n, Targets(i), ns, lo);
    Move(s, Put(s, i), insts, cfg, n, k, nest, ms, Targets(i), ns, lo);
  }

  lemma BranchStep(s: S, insts: seq<IrInst>, cfg: Cfg, n: nat, nest: seq<Nested>, ms: seq<Mention>, pc: u32, lo: nat)
    requires n < |insts| && Increasing(insts) && Sound(s, insts, cfg, n, n + 1, nest, ms, lo)
    ensures Sound(BranchTo(s, pc), insts, cfg, n, n + 1, nest, ms + [Mention(pc, n)], lo)
  {
    hide Sound, Known, RefsOk, Increasing;
    ReserveStep(s, insts, cfg, n, nest, ms, pc, lo);
    var t := Reserve(s, pc);
    OneKnown(t, insts, cfg, n, t.labels[pc], Mention(pc, n), lo);
    PutStep(t, Inst(249, [t.labels[pc]]), insts, cfg, n, n + 1, nest, ms, [Mention(pc, n)], lo);
  }

  /** The label of the fall-through is placed behind a guarded branch. */
  lemma PlaceKnown(s: S, insts: seq<IrInst>, cfg: Cfg, n: nat, l: nat, m: Mention, lo: nat)
    requires n < |insts| && Increasing(insts) && GuardedBra(insts[n]) && LabelInv(s, lo) && Known(s, insts, cfg, n, l, m, lo)
    requires FalsePc(insts, n) in s.labels && FalsePc(insts, n) !in s.emitted
    ensures Known(WithFallThrough(s, FalsePc(insts, n)), insts, cfg, n + 1, l, m, lo)
  {
    hide LabelInv, Labels, Defs, StartsBy, Increasing;
    var f := FalsePc(insts, n);
    var t := WithFallThrough(s, f);
    LabelAdded(s.code, s.labels[f]);
    LabelsApart(s, lo);
    FallsNext(insts, m.pc, n);
    hide FallsTo, GuardedBra, FalsePc;
    if !Anchored(insts, cfg, m, n + 1) {
      if Waiting(s, l, m.pc) {
        assert Waiting(t, l, m.pc);
      } else {
        assert Dead(t, l);
      }
    }
  }

  function WithFallThrough(s: S, pc: u32): S
    requires pc in s.labels
  {
    Put(s, Inst(248, [s.labels[pc]])).(emitted := s.emitted + {pc})
  }

  lemma FallsNext(insts: seq<IrInst>, pc: u32, n: nat)
    requires n < |insts| && GuardedBra(insts[n])
    ensures FallsTo(insts, pc, n + 1) <==> FallsTo(insts, pc, n) || pc == FalsePc(insts, n)
    ensures NeverFalls(insts, pc, n) ==> pc != FalsePc(insts, n) && NeverFalls(insts, pc, n + 1)
  {
    if pc == FalsePc(insts, n) {
      assert 0 <= n < n + 1 && GuardedBra(insts[n]) && FalsePc(insts, n) == pc;
    }
  }

  /** The fall-through of an instruction is not emitted before. */
  lemma AheadNotEmitted(s: S, insts: seq<IrInst>, cfg: Cfg, n: nat)
    requires n < |insts| && Increasing(insts) && EmittedOk(s, insts, cfg, n, n + 1)
    ensures FalsePc(insts, n) !in s.emitted && FalsePc(insts, n) != insts[0].pc
  {
    var f := FalsePc(insts, n);
    assert forall k :: 0 <= k <= n ==> insts[k].pc < f;
    assert forall m :: 0 <= m < n ==> FalsePc(insts, m) == insts[m + 1].pc < f;
  }

  lemma PlaceCoreKept(s: S, insts: seq<IrInst>, cfg: Cfg, n: nat, lo: nat)
    requires n < |insts| && Increasing(insts) && GuardedBra(insts[n]) && Core(s, insts, cfg, n, n + 1, lo)
    requires FalsePc(insts, n) in s.labels
    ensures FalsePc(insts, n) !in s.emitted && Core(WithFallThrough(s, FalsePc(insts, n)), insts, cfg, n + 1, n + 1, lo)
  {
    hide LabelInv, Labels, Defs, StartsBy, Increasing, FallsTo, GuardedBra, FalsePc, LabelsOk, EmittedOk;
    var f := FalsePc(insts, n);
    AheadNotEmitted(s, insts, cfg, n);
    PlaceInv(s, f, lo);
    PlaceLabels(s, insts[0].pc, f, lo);
    PlaceEmitted(s, insts, cfg, n);
  }

  lemma PlaceLabels(s: S, first: u32, f: u32, lo: nat)
    requires LabelInv(s, lo) && LabelsOk(s, first) && f in s.labels && f !in s.emitted && f != first
    ensures LabelsOk(WithFallThrough(s, f), first)
  {
    hide LabelInv, Labels, Defs;
    LabelAdded(s.code, s.labels[f]);
    LabelsApart(s, lo);
  }

  lemma PlaceEmitted(s: S, insts: seq<IrInst>, cfg: Cfg, n: nat)
    requires n < |insts| && GuardedBra(insts[n]) && EmittedOk(s, insts, cfg, n, n + 1) && FalsePc(insts, n) in s.labels
    ensures EmittedOk(WithFallThrough(s, FalsePc(insts, n)), insts, cfg, n + 1, n + 1)
  {
    hide StartsBy;
    var f := FalsePc(insts, n);
    forall pc: u32 ensures FallsTo(insts, pc, n + 1) <==> FallsTo(insts, pc, n) || pc == f {
      FallsNext(insts, pc, n);
    }
    hide FallsTo, FalsePc;
  }

  lemma PlaceStep(s: S, insts: seq<IrInst>, cfg: Cfg, n: nat, nest: seq<Nested>, ms: seq<Mention>, lo: nat)
    requires n < |insts| && Increasing(insts) && GuardedBra(insts[n]) && FalsePc(insts, n) in s.labels
    requires Sound(s, insts, cfg, n, n + 1, nest, ms, lo)
    ensures Sound(WithFallThrough(s, FalsePc(insts, n)), insts, cfg, n + 1, n + 1, nest, ms, lo)
  {
    hide Known, LabelInv, EmittedOk, LabelsOk, Increasing, GuardedBra, FalsePc, Labels, Defs, Referenced;
    var f := FalsePc(insts, n);
    var t := WithFallThrough(s, f);
    PlaceCoreKept(s, insts, cfg, n, lo);
    LabelAdded(s.code, s.labels[f]);
    var refs := Referenced(s.code);
    forall j | 0 <= j < |ms| ensures Known(t, insts, cfg, n + 1, refs[j], ms[j], lo) {
      PlaceKnown(s, insts, cfg, n, refs[j], ms[j], lo);
    }
    forall j | 0 <= j < |nest| ensures EntryOk(t, insts, cfg, n + 1, s.stack[j], nest[j], lo) {
      var e, q := s.stack[j], nest[j];
      assert EntryOk(s, insts, cfg, n, e, q, lo);
      if q.pending {
        PlaceKnown(s, insts, cfg, n, e.merge, Mention(q.pair.syncPc, q.at), lo);
        if e.kind.Loop? {
          PlaceKnown(s, insts, cfg, n, e.cont, Mention(ContinuePc(q.pair), q.at), lo);
        }
      }
    }
  }

  /** A step that adds no references. */
  lemma QuietStep(s: S, t: S, insts: seq<IrInst>, cfg: Cfg, n: nat, k: nat, nest: seq<Nested>, ms: seq<Mention>, lo: nat)
    requires n <= |insts| && Sound(s, insts, cfg, n, k, nest, ms, lo) && Grows(s, t) && LabelInv(t, lo) && t.stack == s.stack
    requires Referenced(t.code) == Referenced(s.code)
    ensures Sound(t, insts, cfg, n, k, nest, ms, lo)
  {
    hide Known, LabelInv, EmittedOk, LabelsOk, RefsOk, NestOk, Grows, Referenced;
    NothingKnown(t, insts, cfg, n, lo);
    NothingLast(ms);
    NothingLast(Referenced(s.code));
    Move(s, t, insts, cfg, n, k, nest, ms, [], [], lo);
  }

  lemma SoundCore(s: S, insts: seq<IrInst>, cfg: Cfg, n: nat, k: nat, nest: seq<Nested>, ms: seq<Mention>, lo: nat)
    requires n <= |insts| && Sound(s, insts, cfg, n, k, nest, ms, lo)
    ensures insts != [] && lo > 0 && LabelInv(s, lo)
  {
  }

  lemma GuardedStep(env: Env, s: S, insts: seq<IrInst>, cfg: Cfg, n: nat, nest: seq<Nested>, ms: seq<Mention>, lo: nat)
    requires n < |insts| && Increasing(insts) && GuardedBra(insts[n]) && Sound(s, insts, cfg, n, n + 1, nest, ms, lo)
    ensures Sound(GuardedBranch(env, s, insts[n], FalsePc(insts, n)), insts, cfg, n + 1, n + 1, Settled(nest),
                  ms + MentionsAt(insts, cfg, n, nest), lo)
  {
    hide Sound, Known, RefsOk, Increasing, LabelInv, Grows, Settled, MergeMentions, Merge, Referenced;
    var i, f, target := insts[n], FalsePc(insts, n), LabelPc(insts[n].src0);
    var mt, mf, nest', ms' := Mention(target, n), Mention(f, n), Settled(nest), ms + MergeMentions(nest);
    MergeStep(s, insts, cfg, n, n + 1, nest, ms, lo);
    ReserveStep(Merge(s), insts, cfg, n, nest', ms', target, lo);
    var s1 := Reserve(Merge(s), target);
    ReserveStep(s1, insts, cfg, n, nest', ms', f, lo);
    var s2 := Reserve(s1, f);
    var (s3, cond) := ConditionCode(env, s2, i);
    var t, l := s1.labels[target], s2.labels[f];
    SoundCore(s1, insts, cfg, n, n + 1, nest', ms', lo);
    SoundCore(s2, insts, cfg, n, n + 1, nest', ms', lo);
    GrowReserve(s1, f, lo);
    GrowCondition(env, s2, i, lo);
    ConditionInv(env, s2, i, lo);
    GrowKnown(s1, s2, insts, cfg, n, t, mt, lo);
    GrowKnown(s2, s3, insts, cfg, n, t, mt, lo);
    GrowKnown(s2, s3, insts, cfg, n, l, mf, lo);
    QuietStep(s2, s3, insts, cfg, n, n + 1, nest', ms', lo);
    var branch := if i.guardNegate then Inst(250, [cond, l, t]) else Inst(250, [cond, t, l]);
    var ns := if i.guardNegate then [mf, mt] else [mt, mf];
    TwoKnown(s3, insts, cfg, n, t, mt, l, mf, lo);
    PutStep(s3, branch, insts, cfg, n, n + 1, nest', ms', ns, lo);
    Associative(ms, MergeMentions(nest), ns);
    PlaceStep(Put(s3, branch), insts, cfg, n, nest', ms' + ns, lo);
  }

  lemma TwoKnown(s: S, insts: seq<IrInst>, cfg: Cfg, n: nat, a: nat, ma: Mention, b: nat, mb: Mention, lo: nat)
    requires n <= |insts| && insts != [] && Known(s, insts, cfg, n, a, ma, lo) && Known(s, insts, cfg, n, b, mb, lo)
    ensures RefsOk(s, insts, cfg, n, [a, b], [ma, mb], lo) && RefsOk(s, insts, cfg, n, [b, a], [mb, ma], lo)
  {
    hide Known;
  }

  lemma {:induction false} PairAtPc(pairs: seq<Pair>, pc: u32)
    ensures PairAt(pairs, pc).Some? ==> PairAt(pairs, pc).value.ssyPc == pc
  {
    if pairs != [] && pairs[0].ssyPc != pc {
      PairAtPc(pairs[1..], pc);
    }
  }

  /** An SSY takes the labels of its merge and, for a loop, of its continuation. */
  lemma SsyStep(s: S, insts: seq<IrInst>, cfg: Cfg, n: nat, nest: seq<Nested>, ms: seq<Mention>, q: Pair, lo: nat)
    requires n < |insts| && Increasing(insts) && Sound(s, insts, cfg, n, n + 1, nest, ms, lo)
    requires PairAt(cfg.pairs, insts[n].pc) == Some(q)
    ensures Sound(PushSsy(cfg, s, insts[n].pc), insts, cfg, n, n + 1, nest + [Nested(n, q, true)], ms, lo)
  {
    hide Known, Increasing, LabelInv, Grows, Core, RefsOk, Referenced;
    PairAtPc(cfg.pairs, insts[n].pc);
    ReserveStep(s, insts, cfg, n, nest, ms, q.syncPc, lo);
    var s1 := Reserve(s, q.syncPc);
    var merge := s1.labels[q.syncPc];
    var s2 := if q.kind.Loop? then Reserve(s1, ContinuePc(q)) else s1;
    var cont := if q.kind.Loop? then s2.labels[ContinuePc(q)] else 0;
    SoundCore(s1, insts, cfg, n, n + 1, nest, ms, lo);
    if q.kind.Loop? {
      ReserveStep(s1, insts, cfg, n, nest, ms, ContinuePc(q), lo);
      GrowReserve(s1, ContinuePc(q), lo);
      GrowKnown(s1, s2, insts, cfg, n, merge, Mention(q.syncPc, n), lo);
    }
    assert merge >= lo by { KnownAbove(s1, insts, cfg, n, merge, Mention(q.syncPc, n), lo); }
    var e := SsyEntry(insts[n].pc, q.syncPc, q.kind, merge, cont);
    assert EntryOk(s2, insts, cfg, n, e, Nested(n, q, true), lo);
    SameSound(s2, s2.stack + [e], insts, cfg, n, n + 1, nest, nest + [Nested(n, q, true)], ms, lo);
  }

  lemma KnownAbove(s: S, insts: seq<IrInst>, cfg: Cfg, n: nat, l: nat, m: Mention, lo: nat)
    requires n <= |insts| && insts != [] && Known(s, insts, cfg, n, l, m, lo)
    ensures l >= lo
  {
  }

  lemma SyncStep(s: S, insts: seq<IrInst>, cfg: Cfg, n: nat, nest: seq<Nested>, ms: seq<Mention>, lo: nat)
    requires n < |insts| && insts[n].opcode == Ctl(SYNC) && Sound(s, insts, cfg, n, n + 1, nest, ms, lo)
    ensures Sound(PopSync(s, insts[n].pc), insts, cfg, n, n + 1, NestAfter(insts, cfg, n, nest), ms, lo)
  {
    hide Known, Core, RefsOk;
    var k := |nest| - 1;
    if nest != [] {
      assert EntryOk(s, insts, cfg, n, s.stack[k], nest[k], lo);
      if nest[k].pair.syncPc == insts[n].pc {
        SameSound(s, s.stack[..k], insts, cfg, n, n + 1, nest, nest[..k], ms, lo);
      }
    }
  }

  lemma InstStep(env: Env, vars: map<nat, nat>, s: S, i: IrInst, insts: seq<IrInst>, cfg: Cfg, n: nat, k: nat,
                 nest: seq<Nested>, ms: seq<Mention>, lo: nat)
    requires n <= |insts| && Sound(s, insts, cfg, n, k, nest, ms, lo)
    ensures var o := InstOut(env, vars, s.preds, i, s.next);
            Sound(s.(code := s.code + o.code, next := o.next, preds := o.preds), insts, cfg, n, k, nest, ms, lo)
  {
    hide InstOut, Known, EmittedOk, LabelsOk, RefsOk, NestOk, Grows, Labelled;
    var o := InstOut(env, vars, s.preds, i, s.next);
    InstFresh(env, vars, s.preds, i, s.next);
    InstNoFlow(env, vars, s.preds, i, s.next);
    GrowInst(s, o, o.preds);
    AppendCore(s.code, s.next, s.labels, s.emitted, lo, o.code, o.next);
    QuietStep(s, s.(code := s.code + o.code, next := o.next, preds := o.preds), insts, cfg, n, k, nest, ms, lo);
  }

  lemma TopEntry(s: S, insts: seq<IrInst>, cfg: Cfg, n: nat, k: nat, nest: seq<Nested>, ms: seq<Mention>, lo: nat)
    requires n <= |insts| && Sound(s, insts, cfg, n, k, nest, ms, lo)
    ensures s.stack == [] <==> nest == []
    ensures nest != [] ==>
              var e, q := s.stack[|s.stack| - 1], nest[|nest| - 1].pair;
              e.syncPc == q.syncPc && e.ssyPc == q.ssyPc && e.kind == q.kind
  {
    hide Known, Core, RefsOk;
    CoreSome(s, insts, cfg, n, k, lo);
    if nest != [] {
      assert EntryOk(s, insts, cfg, n, s.stack[|nest| - 1], nest[|nest| - 1], lo);
    }
  }

  lemma DispatchStep(env: Env, vars: map<nat, nat>, s: S, insts: seq<IrInst>, cfg: Cfg, n: nat, nest: seq<Nested>, ms: seq<Mention>, lo: nat)
    requires n < |insts| && Increasing(insts) && Sound(s, insts, cfg, n, n + 1, nest, ms, lo)
    ensures Sound(Dispatch(env, vars, insts, cfg, n, s), insts, cfg, n + 1, n + 1, NestAfter(insts, cfg, n, nest),
                  ms + MentionsAt(insts, cfg, n, nest), lo)
  {
    hide Sound, Increasing, InstOut, GuardedBranch, BranchTo, Merge, PushSsy, PopSync, PairAt, Settled, MergeMentions, FalsePc;
    var i, t := insts[n], Dispatch(env, vars, insts, cfg, n, s);
    var nest', ns := NestAfter(insts, cfg, n, nest), MentionsAt(insts, cfg, n, nest);
    TopEntry(s, insts, cfg, n, n + 1, nest, ms, lo);
    if GuardedBra(i) {
      GuardedStep(env, s, insts, cfg, n, nest, ms, lo);
    } else {
      if i.opcode == Ctl(SYNC) {
        SyncStep(s, insts, cfg, n, nest, ms, lo);
        NothingLast(ms);
      } else if i.opcode == Ctl(SSY) {
        NothingLast(ms);
        SsyCase(s, insts, cfg, n, nest, ms, lo);
      } else if PlainBranch(i) {
        MergeStep(s, insts, cfg, n, n + 1, nest, ms, lo);
        BranchStep(Merge(s), insts, cfg, n, Settled(nest), ms + MergeMentions(nest), LabelPc(i.src0), lo);
        Associative(ms, MergeMentions(nest), [Mention(LabelPc(i.src0), n)]);
      } else if i.opcode == Ctl(BREAK) && nest != [] {
        BranchStep(s, insts, cfg, n, nest, ms, nest[|nest| - 1].pair.syncPc, lo);
      } else if i.opcode == Ctl(CONT) {
        ContinueStep(s, insts, cfg, n, nest, ms, lo);
      } else {
        NothingLast(ms);
        InstStep(env, vars, s, i, insts, cfg, n, n + 1, nest, ms, lo);
      }
      assert Sound(t, insts, cfg, n, n + 1, nest', ms + ns, lo);
      NextIndex(t, insts, cfg, n, n + 1, nest', ms + ns, lo);
    }
  }

  lemma SsyCase(s: S, insts: seq<IrInst>, cfg: Cfg, n: nat, nest: seq<Nested>, ms: seq<Mention>, lo: nat)
    requires n < |insts| && Increasing(insts) && insts[n].opcode == Ctl(SSY) && Sound(s, insts, cfg, n, n + 1, nest, ms, lo)
    ensures Sound(PushSsy(cfg, s, insts[n].pc), insts, cfg, n, n + 1, NestAfter(insts, cfg, n, nest), ms, lo)
  {
    hide Sound, Increasing;
    match PairAt(cfg.pairs, insts[n].pc)
    case None =>
    case Some(q) => SsyStep(s, insts, cfg, n, nest, ms, q, lo);
  }

  lemma ContinueStep(s: S, insts: seq<IrInst>, cfg: Cfg, n: nat, nest: seq<Nested>, ms: seq<Mention>, lo: nat)
    requires n < |insts| && Increasing(insts) && insts[n].opcode == Ctl(CONT) && Sound(s, insts, cfg, n, n + 1, nest, ms, lo)
    ensures Sound(Continue(cfg, s), insts, cfg, n, n + 1, nest, ms + MentionsAt(insts, cfg, n, nest), lo)
  {
    hide Sound, Increasing, BranchTo;
    NothingLast(ms);
    TopEntry(s, insts, cfg, n, n + 1, nest, ms, lo);
    if nest != [] && nest[|nest| - 1].pair.kind.Loop? {
      match PairAt(cfg.pairs, nest[|nest| - 1].pair.ssyPc)
      case None =>
      case Some(q) => BranchStep(s, insts, cfg, n, nest, ms, q.braTarget, lo);
    }
  }

  // ── The whole pass ─────────────────────────────────────────────────────

  lemma SoundAtFirst(insts: seq<IrInst>, cfg: Cfg, s: S)
    requires insts != [] && s.code == [] && s.labels == map[] && s.stack == [] && s.emitted == {insts[0].pc} && s.next > 0
    ensures Sound(s, insts, cfg, 0, 0, [], [], s.next)
  {
    FlowStartInv(insts, s);
  }

  lemma {:induction false} FlowSound(env: Env, vars: map<nat, nat>, insts: seq<IrInst>, cfg: Cfg, n: nat, s: S)
    requires n <= |insts| && insts != [] && Increasing(insts)
    requires s.code == [] && s.labels == map[] && s.stack == [] && s.emitted == {insts[0].pc} && s.next > 0
    ensures Sound(Flow(env, vars, insts, cfg, n, s), insts, cfg, n, n, Nest(insts, cfg, n), Mentions(insts, cfg, n), s.next)
    decreases n
  {
    hide Sound, Dispatch, StartBlock, Increasing, NestAfter, MentionsAt;
    if n == 0 {
      SoundAtFirst(insts, cfg, s);
    } else {
      var k := n - 1;
      FlowSound(env, vars, insts, cfg, k, s);
      var before, nest, ms := Flow(env, vars, insts, cfg, k, s), Nest(insts, cfg, k), Mentions(insts, cfg, k);
      StartStep(before, insts, cfg, k, nest, ms, s.next);
      DispatchStep(env, vars, StartBlock(cfg, before, insts[k].pc), insts, cfg, k, nest, ms, s.next);
    }
  }

  /** At the end a label is placed if and only if its reference is anchored. */
  lemma KnownExact(s: S, insts: seq<IrInst>, cfg: Cfg, l: nat, m: Mention, lo: nat)
    requires insts != [] && LabelInv(s, lo) && Known(s, insts, cfg, |insts|, l, m, lo)
    ensures l in Labels(s.code) <==> Anchored(insts, cfg, m, |insts|)
  {
    hide Labels, Defs, OnceEach, FallsTo, StartsBy;
    LabelsDefined(s.code);
  }

  /** Every reference of the program finds its label. */
  ghost predicate AllAnchored(insts: seq<IrInst>) {
    insts == [] || forall m :: m in Mentions(insts, CfgOf(insts), |insts|) ==> Anchored(insts, CfgOf(insts), m, |insts|)
  }

  /** In the code of the pass every label referred to is placed if and only if every reference of the program is anchored. */
  lemma FlowPlacedExact(env: Env, vars: map<nat, nat>, p: Program, next: nat)
    requires Increasing(p.insts) && next > 0
    ensures AllPlaced(Flow(env, vars, p.insts, CfgOf(p.insts), |p.insts|, FlowStart(p, next)).code) <==> AllAnchored(p.insts)
    ensures forall x :: x in Referenced(Flow(env, vars, p.insts, CfgOf(p.insts), |p.insts|, FlowStart(p, next)).code) ==> x >= next
  {
    hide Increasing, LabelInv, Known, EmittedOk, LabelsOk, Anchored, Mentions, CfgOf, Labels, Referenced;
    var insts, cfg, s := p.insts, CfgOf(p.insts), FlowStart(p, next);
    if insts == [] {
      assert Referenced([]) == [] by { CodeNothing(); }
    } else {
      hide Flow;
      FlowSound(env, vars, insts, cfg, |insts|, s);
      var t, ms := Flow(env, vars, insts, cfg, |insts|, s), Mentions(insts, cfg, |insts|);
      var refs := Referenced(t.code);
      forall j | 0 <= j < |ms| ensures refs[j] in Labels(t.code) <==> Anchored(insts, cfg, ms[j], |insts|) {
        KnownExact(t, insts, cfg, refs[j], ms[j], next);
      }
      forall j | 0 <= j < |ms| ensures refs[j] >= next {
        KnownAbove(t, insts, cfg, |insts|, refs[j], ms[j], next);
      }
    }
  }

  lemma CodeNothing()
    ensures Referenced([]) == [] && Labels([]) == {}
  {
  }

  // ── The module ─────────────────────────────────────────────────────────

  lemma PrologueNoFlow(p: Program, stale: nat)
    ensures var ids := IdsOf(p, stale);
            && NoFlow(Globals(p, ids)) && Referenced(FunctionStart(ids)) == [] && Labels(FunctionStart(ids)) == {ids.base + 28}
  {
    var ids := IdsOf(p, stale);
    var b := ids.base;
    GlobalsNoFlow(p, ids);
    var decls := [Inst(33, [b + 27, b]), Inst(54, [b, ids.Func(), 0, b + 27])];
    NoFlowNothing(decls);
    LabelAdded(decls, b + 28);
    assert FunctionStart(ids) == decls + [Inst(248, [b + 28])];
  }

  lemma GlobalsNoFlow(p: Program, ids: Ids)
    requires ids.io == IoIds(p)
    ensures NoFlow(Globals(p, ids))
  {
    hide Globals;
    EmitterLayout.GlobalSections(p, ids);
    var func := [Inst(33, [ids.base + 27, ids.base])];
    forall k | 0 <= k < |Globals(p, ids)| ensures !(246 <= Globals(p, ids)[k].op <= 250) {
      assert Globals(p, ids)[k] == (Globals(p, ids) + func)[k];
    }
  }

  lemma RestNoFlow(p: Program, stale: nat)
    ensures var env, g := Env(IdsOf(p, stale)), GprsOf(p, stale);
            NoFlow(g.code) && NoFlow(IoBody(p, env, g.next)) && NoFlow(Epilogue(p.insts))
  {
    hide HasKil, GprsOf;
    EmitterLayout.VariablesOf(p, stale);
  }

  /** Around the pass only the entry block's label stands. */
  lemma ModuleCode(p: Program, stale: nat)
    ensures Referenced(Module(p, stale)) == Referenced(FlowOf(p, stale).code)
    ensures Labels(Module(p, stale)) == {IdsOf(p, stale).base + 28} + Labels(FlowOf(p, stale).code)
  {
    hide Globals, FunctionStart, IoBody, FlowOf, Epilogue, GprsOf, Referenced, Labels, NoFlow, IdsOf;
    assert IdsOf(p, stale).io == IoIds(p) by { EmitterLayout.IoOf(p, stale); }
    var ids := IdsOf(p, stale);
    var g, flow := GprsOf(p, stale), FlowOf(p, stale).code;
    var io := IoBody(p, Env(ids), g.next);
    PrologueNoFlow(p, stale);
    RestNoFlow(p, stale);
    NoFlowNothing(Globals(p, ids));
    NoFlowNothing(g.code);
    NoFlowNothing(io);
    NoFlowNothing(Epilogue(p.insts));
    CodeAppend(Globals(p, ids), FunctionStart(ids));
    CodeAppend(Globals(p, ids) + FunctionStart(ids), g.code);
    CodeAppend(Globals(p, ids) + FunctionStart(ids) + g.code, io);
    CodeAppend(Globals(p, ids) + FunctionStart(ids) + g.code + io, flow);
    CodeAppend(Globals(p, ids) + FunctionStart(ids) + g.code + io + flow, Epilogue(p.insts));
  }

  /**
   In the module of a program with increasing pcs every label that a branch or a
   merge refers to is placed if and only if every reference of the program goes to
   the block right behind a guarded branch, or back to a block start other than
   the first instruction.
   */
  lemma LabelsPlacedExact(p: Program, stale: nat)
    requires Increasing(p.insts)
    ensures AllPlaced(Module(p, stale)) <==> AllAnchored(p.insts)
  {
    hide Module, IdsOf, Referenced, Labels, Flow, Increasing, AllAnchored, BuildGprs, GprsInv, CfgOf;
    var ids, g := IdsOf(p, stale), GprsOf(p, stale);
    ModuleCode(p, stale);
    GprsFresh(Env(ids).F32FnPtr(), p.insts, Env(ids).Body());
    GprsAbove(g, Env(ids).F32FnPtr(), Env(ids).Body());
    FlowPlacedExact(Env(ids), g.vars, p, g.next + IoCount(p));
  }

  lemma GprsAbove(g: Gprs, ptr: nat, lo: nat)
    requires GprsInv(g, ptr, lo)
    ensures g.next >= lo
  {
  }

  // ── A program the pass is meant for ────────────────────────────────────

  const NOTHING := Operand(KNone, 0, false, false, false, 0)

  function LabelAt(pc: u32): Operand { Operand(KLabel, pc / 8, false, false, false, 0) }

  function Simple(op: Control, target: Operand, pc: u32, guard: bool): IrInst {
    IrInst(Ctl(op), NOTHING, target, NOTHING, NOTHING, 1, pc, guard, 0, false)
  }

  /** A conditional: SSY, a guarded branch over one instruction to the SYNC, and EXIT. */
  const CONDITIONAL := Program(Compute,
    [Simple(SSY, LabelAt(24), 0, false), Simple(BRA, LabelAt(24), 8, true), Simple(NOP, NOTHING, 16, false),
     Simple(SYNC, NOTHING, 24, false), Simple(EXIT, NOTHING, 32, false)], false)

  lemma {:induction false} MentionsLater(insts: seq<IrInst>, cfg: Cfg, n: nat, k: nat, m: Mention)
    requires n <= k <= |insts| && m in Mentions(insts, cfg, n)
    ensures m in Mentions(insts, cfg, k)
    decreases k
  {
    hide MentionsAt, Nest;
    if n < k {
      MentionsLater(insts, cfg, n, k - 1, m);
    }
  }

  /** The branch of a plain conditional goes to a label that is nowhere in the module. */
  lemma ConditionalLost(stale: nat)
    ensures !AllPlaced(Module(CONDITIONAL, stale))
  {
    hide Module, AllPlaced, CfgOf, Nest, NestAfter, MergeMentions;
    var insts := CONDITIONAL.insts;
    var cfg, m := CfgOf(insts), Mention(24, 1);
    assert Increasing(insts);
    LabelsPlacedExact(CONDITIONAL, stale);
    assert m in MentionsAt(insts, cfg, 1, Nest(insts, cfg, 1));
    assert m in Mentions(insts, cfg, 2);
    MentionsLater(insts, cfg, 2, |insts|, m);
    assert !Anchored(insts, cfg, m, |insts|);
  }

  /** A loop whose branch back is its last instruction before the SYNC. */
  const REPETITION := Program(Compute,
    [Simple(SSY, LabelAt(24), 0, false), Simple(NOP, NOTHING, 8, false), Simple(BRA, LabelAt(8), 16, true),
     Simple(SYNC, NOTHING, 24, false), Simple(EXIT, NOTHING, 32, false)], false)

  lemma {:induction false} NoSsy(insts: seq<IrInst>, n: nat, k: nat)
    requires n <= k <= |insts| && forall j :: n <= j < k ==> insts[j].opcode != Ctl(SSY)
    ensures PairsUpTo(insts, k) == PairsUpTo(insts, n)
    decreases k
  {
    hide FindBranch;
    if n < k {
      NoSsy(insts, n, k - 1);
    }
  }

  lemma OnePair(q: Pair)
    ensures StartsOf([q]) == {q.syncPc, After(q.ssyPc)} + (if q.braTarget != 0 then {q.braTarget} else {})
    ensures PairAt([q], q.ssyPc) == Some(q)
  {
    assert [q][..0] == [];
  }

  const REPETITION_PAIR := Pair(0, 24, 8, Selection)

  lemma RepetitionCfg()
    ensures CfgOf(REPETITION.insts).pairs == [REPETITION_PAIR] && {0, 8, 24} <= CfgOf(REPETITION.insts).starts
  {
    hide StartsOf;
    var insts := REPETITION.insts;
    NoSsy(insts, 1, 5);
    hide PairsUpTo;
    OnePair(REPETITION_PAIR);
    assert PairsUpTo(insts, 1) == [REPETITION_PAIR] by { RepetitionPair(); }
  }

  lemma RepetitionPair()
    ensures PairsUpTo(REPETITION.insts, 1) == [REPETITION_PAIR]
  {
    var insts := REPETITION.insts;
    assert FindBranch(insts, 2, 0, 24) == REPETITION_PAIR;
    assert FindBranch(insts, 1, 0, 24) == REPETITION_PAIR;
    assert PairsUpTo(insts, 0) == [];
  }

  lemma MentionsStep(insts: seq<IrInst>, cfg: Cfg, n: nat)
    requires n < |insts|
    ensures Mentions(insts, cfg, n + 1) == Mentions(insts, cfg, n) + MentionsAt(insts, cfg, n, Nest(insts, cfg, n))
    ensures Nest(insts, cfg, n + 1) == NestAfter(insts, cfg, n, Nest(insts, cfg, n))
  {
  }

  lemma RepetitionMentions()
    ensures var insts := REPETITION.insts;
            Mentions(insts, CfgOf(insts), 5) == [Mention(24, 0), Mention(8, 2), Mention(24, 2)]
  {
    hide CfgOf, PairAt, Mentions, Nest;
    RepetitionCfg();
    OnePair(REPETITION_PAIR);
    var insts, cfg := REPETITION.insts, CfgOf(REPETITION.insts);
    MentionsStep(insts, cfg, 0);
    MentionsStep(insts, cfg, 1);
    MentionsStep(insts, cfg, 2);
    MentionsStep(insts, cfg, 3);
    MentionsStep(insts, cfg, 4);
    MentionsNothing(insts, cfg);
    var nest := [Nested(0, REPETITION_PAIR, true)];
    assert Nest(insts, cfg, 1) == nest && Nest(insts, cfg, 2) == nest;
    assert MentionsAt(insts, cfg, 2, nest) == [Mention(24, 0), Mention(8, 2), Mention(24, 2)];
  }

  lemma MentionsNothing(insts: seq<IrInst>, cfg: Cfg)
    ensures Mentions(insts, cfg, 0) == [] && Nest(insts, cfg, 0) == []
  {
  }

  /** Its labels are all placed. */
  lemma RepetitionPlaced(stale: nat)
    ensures AllPlaced(Module(REPETITION, stale))
  {
    hide Module, AllPlaced, CfgOf, Mentions;
    var insts := REPETITION.insts;
    RepetitionCfg();
    RepetitionMentions();
    assert Increasing(insts);
    LabelsPlacedExact(REPETITION, stale);
    assert GuardedBra(insts[2]) && FalsePc(insts, 2) == 24;
    assert insts[1].pc == 8;
    forall m | m in Mentions(insts, CfgOf(insts), 5) ensures Anchored(insts, CfgOf(insts), m, 5) {
    }
  }
}
