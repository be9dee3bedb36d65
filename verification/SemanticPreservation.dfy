/**
 The end-to-end theorem for straight-line programs: from the words the emitter
 returns, through the split into instructions and the execution of the whole
 module, to the register file.
 */
module SemanticPreservation {
  import opened Common
  import opened Spirv
  import opened ShaderIr
  import opened EmitterSpec
  import opened SpirvMachine
  import EmitterIds
  import EmitterLayout
  import opened CompilerCorrectness

  // ── Type declarations ──────────────────────────────────────────────────

  /** The machine after one more type declaration. */
  function Typed(m: Machine, id: nat, ty: Ty): Machine {
    m.(types := m.types[id := ty])
  }

  /** Apart from types at or above lo, nothing changed. */
  ghost predicate TypesGrow(m: Machine, n: Machine, lo: nat) {
    && n.vals == m.vals && n.vars == m.vars && n.declared == m.declared
    && forall x :: x < lo && x in m.types ==> x in n.types && n.types[x] == m.types[x]
  }

  lemma TypesGrowTrans(a: Machine, b: Machine, c: Machine, lo: nat, mid: nat)
    requires TypesGrow(a, b, lo) && TypesGrow(b, c, mid) && lo <= mid
    ensures TypesGrow(a, c, lo)
  {
  }

  /** Executing a type declaration at position k of a list. */
  lemma TypeAt(fp: FloatOps, m: Machine, code: seq<Inst>, k: nat, ty: Ty)
    requires k < |code| && 19 <= code[k].op <= 33 && |code[k].args| > 0 && DeclaredType(m.types, code[k]) == Some(ty)
    ensures Exec(fp, m, code[k..]) == Exec(fp, Typed(m, code[k].args[0], ty), code[k + 1..])
  {
    hide DeclaredType;
    assert code[k..][1..] == code[k + 1..];
  }

  lemma PointerAt(fp: FloatOps, m: Machine, code: seq<Inst>, k: nat, id: nat, class_: nat, to: nat)
    requires k < |code| && code[k] == Inst(32, [id, class_, to]) && to in m.types
    ensures Exec(fp, m, code[k..]) == Exec(fp, Typed(m, id, Ptr(m.types[to])), code[k + 1..])
  {
    TypeAt(fp, m, code, k, Ptr(m.types[to]));
  }

  lemma VectorAt(fp: FloatOps, m: Machine, code: seq<Inst>, k: nat, id: nat, comp: nat, count: nat)
    requires k < |code| && code[k] == Inst(23, [id, comp, count]) && comp in m.types
    ensures Exec(fp, m, code[k..]) ==
            Exec(fp, Typed(m, id, if m.types[comp] == F32 && count == 4 then Vec4F32 else OtherTy), code[k + 1..])
  {
    TypeAt(fp, m, code, k, if m.types[comp] == F32 && count == 4 then Vec4F32 else OtherTy);
  }

  /** Images, arrays and structures are opaque to the machine. */
  lemma OpaqueAt(fp: FloatOps, m: Machine, code: seq<Inst>, k: nat, id: nat)
    requires k < |code| && (code[k].op == 25 || code[k].op == 27 || code[k].op == 29 || code[k].op == 30 || code[k].op == 33)
    requires |code[k].args| > 1 && code[k].args[0] == id && code[k].args[1] in m.types
    ensures Exec(fp, m, code[k..]) == Exec(fp, Typed(m, id, OtherTy), code[k + 1..])
  {
    TypeAt(fp, m, code, k, OtherTy);
  }

  lemma ExecDone(fp: FloatOps, m: Machine, code: seq<Inst>)
    ensures code[0..] == code && Exec(fp, m, code[|code|..]) == Some(m)
  {
  }

  /** The scalar types, as the machine sees them. */
  ghost predicate Scalars(m: Machine, b: nat) {
    && b in m.types && m.types[b] == Void && b + 1 in m.types && m.types[b + 1] == Bool
    && b + 2 in m.types && m.types[b + 2] == F32 && b + 3 in m.types && m.types[b + 3] == I32
    && b + 4 in m.types && m.types[b + 4] == U32
  }

  lemma ScalarsGrow(m: Machine, n: Machine, b: nat, lo: nat)
    requires Scalars(m, b) && TypesGrow(m, n, lo) && b + 5 <= lo
    ensures Scalars(n, b)
  {
  }

  lemma ScalarDecl(types: map<nat, Ty>, b: nat)
    ensures DeclaredType(types, Inst(19, [b])) == Some(Void) && DeclaredType(types, Inst(20, [b + 1])) == Some(Bool)
    ensures DeclaredType(types, Inst(22, [b + 2, 32])) == Some(F32)
    ensures DeclaredType(types, Inst(21, [b + 3, 32, 1])) == Some(I32) && DeclaredType(types, Inst(21, [b + 4, 32, 0])) == Some(U32)
  {
  }

  lemma FirstScalars(fp: FloatOps, m: Machine, b: nat, code: seq<Inst>) returns (n: Machine)
    requires code == ScalarTypes(b)
    ensures Exec(fp, m, code) == Exec(fp, n, code[3..]) && TypesGrow(m, n, b)
    ensures b in n.types && n.types[b] == Void && b + 1 in n.types && n.types[b + 1] == Bool
    ensures b + 2 in n.types && n.types[b + 2] == F32
  {
    hide Exec, DeclaredType;
    var m1 := Typed(m, b, Void);
    var m2 := Typed(m1, b + 1, Bool);
    n := Typed(m2, b + 2, F32);
    ScalarDecl(m.types, b);
    TypeAt(fp, m, code, 0, Void);
    ScalarDecl(m1.types, b);
    TypeAt(fp, m1, code, 1, Bool);
    ScalarDecl(m2.types, b);
    TypeAt(fp, m2, code, 2, F32);
    ExecDone(fp, n, code);
  }

  lemma LastScalars(fp: FloatOps, m: Machine, b: nat, code: seq<Inst>) returns (n: Machine)
    requires code == ScalarTypes(b)
    ensures Exec(fp, m, code[3..]) == Some(n) && TypesGrow(m, n, b + 3)
    ensures b + 3 in n.types && n.types[b + 3] == I32 && b + 4 in n.types && n.types[b + 4] == U32
  {
    hide Exec, DeclaredType;
    var m1 := Typed(m, b + 3, I32);
    n := Typed(m1, b + 4, U32);
    ScalarDecl(m.types, b);
    TypeAt(fp, m, code, 3, I32);
    ScalarDecl(m1.types, b);
    TypeAt(fp, m1, code, 4, U32);
    ExecDone(fp, n, code);
  }

  lemma ScalarExec(fp: FloatOps, m: Machine, b: nat) returns (n: Machine)
    ensures Exec(fp, m, ScalarTypes(b)) == Some(n) && TypesGrow(m, n, b) && Scalars(n, b)
  {
    hide Exec, ScalarTypes;
    var m1 := FirstScalars(fp, m, b, ScalarTypes(b));
    n := LastScalars(fp, m1, b, ScalarTypes(b));
  }

  /** The two-, three- and four-vectors of a component type, from position k of a list. */
  lemma VectorTriple(fp: FloatOps, m: Machine, code: seq<Inst>, k: nat, id: nat, comp: nat) returns (n: Machine)
    requires comp in m.types && comp < id && k + 2 < |code|
    requires code[k] == Inst(23, [id, comp, 2]) && code[k + 1] == Inst(23, [id + 1, comp, 3]) && code[k + 2] == Inst(23, [id + 2, comp, 4])
    ensures Exec(fp, m, code[k..]) == Exec(fp, n, code[k + 3..])
    ensures TypesGrow(m, n, id) && id + 2 in n.types && n.types[id + 2] == if m.types[comp] == F32 then Vec4F32 else OtherTy
  {
    hide Exec;
    var m1 := Typed(m, id, OtherTy);
    var m2 := Typed(m1, id + 1, OtherTy);
    n := Typed(m2, id + 2, if m.types[comp] == F32 then Vec4F32 else OtherTy);
    VectorAt(fp, m, code, k, id, comp, 2);
    VectorAt(fp, m1, code, k + 1, id + 1, comp, 3);
    VectorAt(fp, m2, code, k + 2, id + 2, comp, 4);
  }

  lemma VectorExec(fp: FloatOps, m: Machine, b: nat) returns (n: Machine)
    requires Scalars(m, b)
    ensures Exec(fp, m, VectorTypes(b)) == Some(n) && TypesGrow(m, n, b + 5)
    ensures b + 7 in n.types && n.types[b + 7] == Vec4F32
  {
    hide Exec;
    var code := VectorTypes(b);
    var m1 := VectorTriple(fp, m, code, 0, b + 5, b + 2);
    ScalarsGrow(m, m1, b, b + 5);
    var m2 := VectorTriple(fp, m1, code, 3, b + 8, b + 3);
    TypesGrowTrans(m, m1, m2, b + 5, b + 8);
    ScalarsGrow(m, m2, b, b + 5);
    n := VectorTriple(fp, m2, code, 6, b + 11, b + 4);
    TypesGrowTrans(m, m2, n, b + 5, b + 11);
    ExecDone(fp, n, code);
  }

  /** The pointer types that variables are declared with. */
  ghost predicate Pointers(m: Machine, b: nat) {
    && b + 7 in m.types && m.types[b + 7] == Vec4F32
    && b + 14 in m.types && m.types[b + 14] == Ptr(F32)
    && b + 15 in m.types && m.types[b + 15] == Ptr(Vec4F32)
    && b + 16 in m.types && m.types[b + 16] == Ptr(Vec4F32)
    && b + 19 in m.types && m.types[b + 19] == Ptr(OtherTy)
  }

  /** Two pointer types in a row, to earlier types. */
  lemma PointerPair(fp: FloatOps, m: Machine, code: seq<Inst>, k: nat, id: nat, c: nat, to: nat, c': nat, to': nat) returns (n: Machine)
    requires k + 1 < |code| && code[k] == Inst(32, [id, c, to]) && code[k + 1] == Inst(32, [id + 1, c', to'])
    requires to in m.types && to' in m.types && to < id && to' < id
    ensures Exec(fp, m, code[k..]) == Exec(fp, n, code[k + 2..]) && TypesGrow(m, n, id)
    ensures id in n.types && n.types[id] == Ptr(m.types[to]) && id + 1 in n.types && n.types[id + 1] == Ptr(m.types[to'])
  {
    hide Exec;
    var m1 := Typed(m, id, Ptr(m.types[to]));
    n := Typed(m1, id + 1, Ptr(m.types[to']));
    PointerAt(fp, m, code, k, id, c, to);
    PointerAt(fp, m1, code, k + 1, id + 1, c', to');
  }

  lemma VariablePointers(fp: FloatOps, m: Machine, b: nat, code: seq<Inst>) returns (n: Machine)
    requires Scalars(m, b) && b + 7 in m.types && m.types[b + 7] == Vec4F32 && code == PointerTypes(b)
    ensures Exec(fp, m, code) == Exec(fp, n, code[4..]) && TypesGrow(m, n, b + 14)
    ensures b + 14 in n.types && n.types[b + 14] == Ptr(F32)
    ensures b + 15 in n.types && n.types[b + 15] == Ptr(Vec4F32)
    ensures b + 16 in n.types && n.types[b + 16] == Ptr(Vec4F32)
  {
    hide Exec;
    var m1 := PointerPair(fp, m, code, 0, b + 14, 7, b + 2, 1, b + 7);
    n := PointerPair(fp, m1, code, 2, b + 16, 3, b + 7, 2, b + 2);
    TypesGrowTrans(m, m1, n, b + 14, b + 16);
    ExecDone(fp, n, code);
  }

  lemma ImagePointers(fp: FloatOps, m: Machine, b: nat, code: seq<Inst>) returns (n: Machine)
    requires b + 2 in m.types && code == PointerTypes(b)
    ensures Exec(fp, m, code[4..]) == Some(n) && TypesGrow(m, n, b + 18)
    ensures b + 19 in n.types && n.types[b + 19] == Ptr(OtherTy)
  {
    hide Exec;
    var m1 := Typed(m, b + 18, OtherTy);
    var m2 := Typed(m1, b + 19, Ptr(OtherTy));
    n := Typed(m2, b + 20, OtherTy);
    OpaqueAt(fp, m, code, 4, b + 18);
    PointerAt(fp, m1, code, 5, b + 19, 0, b + 18);
    OpaqueAt(fp, m2, code, 6, b + 20);
    ExecDone(fp, n, code);
  }

  lemma PointerExec(fp: FloatOps, m: Machine, b: nat) returns (n: Machine)
    requires Scalars(m, b) && b + 7 in m.types && m.types[b + 7] == Vec4F32
    ensures Exec(fp, m, PointerTypes(b)) == Some(n) && TypesGrow(m, n, b + 14) && Pointers(n, b)
  {
    hide Exec, PointerTypes;
    var m1 := VariablePointers(fp, m, b, PointerTypes(b));
    n := ImagePointers(fp, m1, b, PointerTypes(b));
  }

  /** The constant-buffer types take ids below the other types. */
  lemma CbufBelow(fp: FloatOps, m: Machine, b: nat, c: nat, code: seq<Inst>) returns (n: Machine)
    requires b + 2 in m.types && c + 2 < b && code == CbufTypes(b, c) + LastTypes(b, c + 1)
    ensures Exec(fp, m, code) == Exec(fp, n, code[2..])
    ensures n.vals == m.vals && n.vars == m.vars && n.declared == m.declared
    ensures forall x :: x >= b && x in m.types ==> x in n.types && n.types[x] == m.types[x]
    ensures c + 1 in n.types && n.types[c + 1] == OtherTy
  {
    hide Exec;
    var m1 := Typed(m, c, OtherTy);
    n := Typed(m1, c + 1, OtherTy);
    OpaqueAt(fp, m, code, 0, c);
    OpaqueAt(fp, m1, code, 1, c + 1);
    assert code[0..] == code;
  }

  lemma CbufLast(fp: FloatOps, m: Machine, b: nat, c: nat, code: seq<Inst>) returns (n: Machine)
    requires b + 1 in m.types && c + 2 < b && c + 1 in m.types && m.types[c + 1] == OtherTy
    requires code == CbufTypes(b, c) + LastTypes(b, c + 1)
    ensures Exec(fp, m, code[2..]) == Some(n) && TypesGrow(m, n, b + 21)
    ensures b + 21 in n.types && n.types[b + 21] == Ptr(OtherTy)
  {
    hide Exec;
    var m1 := Typed(m, b + 21, Ptr(OtherTy));
    n := Typed(m1, b + 22, Ptr(m1.types[b + 1]));
    PointerAt(fp, m, code, 2, b + 21, 2, c + 1);
    PointerAt(fp, m1, code, 3, b + 22, 7, b + 1);
    ExecDone(fp, n, code);
  }

  lemma CbufExec(fp: FloatOps, m: Machine, b: nat, c: nat) returns (n: Machine)
    requires Scalars(m, b) && Pointers(m, b) && c + 2 < b
    ensures Exec(fp, m, CbufTypes(b, c) + LastTypes(b, c + 1)) == Some(n)
    ensures n.vals == m.vals && n.vars == m.vars && n.declared == m.declared
    ensures Scalars(n, b) && Pointers(n, b) && b + 21 in n.types && n.types[b + 21] == Ptr(OtherTy)
  {
    hide Exec, CbufTypes, LastTypes;
    var code := CbufTypes(b, c) + LastTypes(b, c + 1);
    var m1 := CbufBelow(fp, m, b, c, code);
    n := CbufLast(fp, m1, b, c, code);
  }

  lemma BaseTypesExec(fp: FloatOps, m: Machine, ids: Ids) returns (n: Machine)
    requires ids.CbufVar() < ids.base
    ensures Exec(fp, m, BaseTypes(ids)) == Some(n)
    ensures n.vals == m.vals && n.vars == m.vars && n.declared == m.declared
    ensures Scalars(n, ids.base) && Pointers(n, ids.base)
    ensures ids.base + 21 in n.types && n.types[ids.base + 21] == Ptr(OtherTy)
  {
    hide Exec, ScalarTypes, VectorTypes, PointerTypes, CbufTypes, LastTypes, Scalars, Pointers;
    var b, c := ids.base, ids.CbufArray();
    var m1 := ScalarExec(fp, m, b);
    var m2 := VectorExec(fp, m1, b);
    ScalarsGrow(m1, m2, b, b + 5);
    var m3 := PointerExec(fp, m2, b);
    ScalarsGrow(m2, m3, b, b + 14);
    n := CbufExec(fp, m3, b, c);
    ExecAppend(fp, m, ScalarTypes(b), VectorTypes(b));
    ExecAppend(fp, m, ScalarTypes(b) + VectorTypes(b), PointerTypes(b));
    ExecAppend(fp, m, ScalarTypes(b) + VectorTypes(b) + PointerTypes(b), CbufTypes(b, c) + LastTypes(b, c + 1));
    assert BaseTypes(ids) ==
           ScalarTypes(b) + VectorTypes(b) + PointerTypes(b) + (CbufTypes(b, c) + LastTypes(b, c + 1));
  }

  // ── Head, constants and variables ──────────────────────────────────────

  lemma {:induction false} NoEffect(fp: FloatOps, m: Machine, code: seq<Inst>)
    requires forall k :: 0 <= k < |code| ==> 14 <= code[k].op <= 17 || code[k].op == 71
    ensures Exec(fp, m, code) == Some(m)
    decreases |code|
  {
    if code != [] {
      NoEffect(fp, m, code[1..]);
    }
  }

  lemma HeadExec(fp: FloatOps, m: Machine, p: Program, ids: Ids)
    ensures Exec(fp, m, ModuleHead(p, ids)) == Some(m.(vals := m.vals[1 := VGlsl]))
  {
    hide StringWords;
    var caps := [Inst(17, [1])] + (if p.usesTextures then [Inst(17, [33])] else []);
    var ext := Inst(11, [ids.Glsl()] + StringWords("GLSL.std.450"));
    var rest := [Inst(14, [0, 1])]
      + [Inst(15, [if p.IsFragment() then 4 else 0, ids.Func()] + StringWords("main") + ids.io)]
      + (if p.IsFragment() then [Inst(16, [ids.Func(), 7])] else []);
    assert Step(fp, m, ext) == Some(m.(vals := m.vals[1 := VGlsl])) by {
      assert ext.args[1..] == StringWords("GLSL.std.450");
    }
    hide Step, Exec;
    var n := m.(vals := m.vals[1 := VGlsl]);
    assert ModuleHead(p, ids) == caps + [ext] + rest;
    NoEffect(fp, m, caps);
    NoEffect(fp, n, rest);
    ExecOne(fp, m, ext);
    ExecAppend(fp, m, caps, [ext]);
    ExecAppend(fp, m, caps + [ext], rest);
  }

  lemma ConstantAt(fp: FloatOps, m: Machine, code: seq<Inst>, k: nat, ty: nat, id: nat, bits: u32)
    requires k < |code| && code[k] == Inst(43, [ty, id, bits]) && ty in m.types && m.types[ty] == F32
    ensures Exec(fp, m, code[k..]) == Exec(fp, m.(vals := m.vals[id := VF(bits)]), code[k + 1..])
  {
    assert code[k..][1..] == code[k + 1..];
  }

  lemma BoolAt(fp: FloatOps, m: Machine, code: seq<Inst>, k: nat, ty: nat, id: nat)
    requires k < |code| && (code[k].op == 41 || code[k].op == 42) && code[k].args == [ty, id]
    requires ty in m.types && m.types[ty] == Bool
    ensures Exec(fp, m, code[k..]) == Exec(fp, m.(vals := m.vals[id := VB(code[k].op == 41)]), code[k + 1..])
  {
    assert code[k..][1..] == code[k + 1..];
  }

  lemma ConstantExec(fp: FloatOps, m: Machine, b: nat) returns (n: Machine)
    requires Scalars(m, b)
    ensures Exec(fp, m, Constants(b)) == Some(n)
    ensures n.types == m.types && n.vars == m.vars && n.declared == m.declared
    ensures b + 23 in n.vals && n.vals[b + 23] == VF(0) && b + 24 in n.vals && n.vals[b + 24] == VF(ONE_F32)
    ensures forall x :: x < b && x in m.vals ==> x in n.vals && n.vals[x] == m.vals[x]
  {
    hide Exec;
    var code := Constants(b);
    var m1 := m.(vals := m.vals[b + 23 := VF(0)]);
    var m2 := m1.(vals := m1.vals[b + 24 := VF(ONE_F32)]);
    var m3 := m2.(vals := m2.vals[b + 25 := VB(true)]);
    n := m3.(vals := m3.vals[b + 26 := VB(false)]);
    ConstantAt(fp, m, code, 0, b + 2, b + 23, 0);
    ConstantAt(fp, m1, code, 1, b + 2, b + 24, ONE_F32);
    BoolAt(fp, m2, code, 2, b + 1, b + 25);
    BoolAt(fp, m3, code, 3, b + 1, b + 26);
    ExecDone(fp, n, code);
  }

  /** A variable declaration: its type is a pointer to the type of what it holds. */
  predicate Declarable(m: Machine, i: Inst) {
    && i.op == 59 && |i.args| == 3 && i.args[0] in m.types && i.args[1] in m.vars
    && m.types[i.args[0]] == Ptr(TypeOf(m.vars[i.args[1]]))
  }

  function Declared(code: seq<Inst>): set<nat> {
    set k | 0 <= k < |code| && |code[k].args| == 3 :: code[k].args[1]
  }

  lemma VariableStep(fp: FloatOps, m: Machine, i: Inst)
    requires Declarable(m, i)
    ensures Step(fp, m, i) == Some(m.(declared := m.declared + {i.args[1]}))
  {
  }

  lemma {:induction false} VariableExec(fp: FloatOps, m: Machine, code: seq<Inst>)
    requires forall k :: 0 <= k < |code| ==> Declarable(m, code[k])
    ensures Exec(fp, m, code) == Some(m.(declared := m.declared + Declared(code)))
    decreases |code|
  {
    if code == [] {
      assert m.declared + Declared(code) == m.declared;
    } else {
      var last := |code| - 1;
      var init := code[..last];
      forall k | 0 <= k < |init| ensures Declarable(m, init[k]) {
        assert init[k] == code[k];
      }
      hide Step;
      VariableExec(fp, m, init);
      var n := m.(declared := m.declared + Declared(init));
      assert Declarable(m, code[last]);
      VariableStep(fp, n, code[last]);
      ExecOne(fp, n, code[last]);
      ExecAppend(fp, m, init, [code[last]]);
      assert code == init + [code[last]];
      assert Declared(code) == Declared(init) + {code[last].args[1]} by { DeclaredSnoc(init, code[last]); }
      assert m.declared + Declared(code) == n.declared + {code[last].args[1]};
    }
  }

  lemma DeclaredSnoc(init: seq<Inst>, i: Inst)
    requires |i.args| == 3
    ensures Declared(init + [i]) == Declared(init) + {i.args[1]}
  {
    var code := init + [i];
    forall x | x in Declared(init) ensures x in Declared(code) {
      var k :| 0 <= k < |init| && |init[k].args| == 3 && init[k].args[1] == x;
      assert code[k] == init[k];
    }
    assert code[|init|].args[1] in Declared(code);
    forall x | x in Declared(code) ensures x in Declared(init) + {i.args[1]} {
      var k :| 0 <= k < |code| && |code[k].args| == 3 && code[k].args[1] == x;
      if k < |init| {
        assert init[k] == code[k];
      }
    }
  }

  /** The memory behind the module's variables before it runs. */
  ghost predicate InitialStore(p: Program, stale: nat, regs: Regs, store: map<nat, Val>) {
    var ids := IdsOf(p, stale);
    var vars := GprsOf(p, stale).vars;
    && (forall k :: 0 <= k < |ids.io| ==> ids.io[k] in store && store[ids.io[k]].V4?)
    && ids.CbufVar() in store && store[ids.CbufVar()] == VOther
    && (p.usesTextures ==> ids.tex in store && store[ids.tex] == VOther)
    && (forall r :: r in vars ==> r < 256 && vars[r] in store && store[vars[r]] == VF(regs[r]))
  }

  lemma IoDeclarable(p: Program, ids: Ids, m: Machine, k: nat)
    requires ids.io == IoIds(p) && Pointers(m, ids.base) && k < |ids.io|
    requires ids.io[k] in m.vars && m.vars[ids.io[k]].V4?
    ensures |IoVariables(p, ids)| == |ids.io|
    ensures Declarable(m, IoVariables(p, ids)[k]) && IoVariables(p, ids)[k].args[1] == ids.io[k]
  {
  }

  lemma GlobalsDeclarable(p: Program, ids: Ids, m: Machine, store: map<nat, Val>)
    requires ids.io == IoIds(p) && Pointers(m, ids.base) && m.vars == store
    requires ids.base + 21 in m.types && m.types[ids.base + 21] == Ptr(OtherTy)
    requires forall k :: 0 <= k < |ids.io| ==> ids.io[k] in store && store[ids.io[k]].V4?
    requires ids.CbufVar() in store && store[ids.CbufVar()] == VOther
    requires p.usesTextures ==> ids.tex in store && store[ids.tex] == VOther
    ensures forall k :: 0 <= k < |GlobalVariables(p, ids)| ==> Declarable(m, GlobalVariables(p, ids)[k])
    ensures forall k :: 0 <= k < |ids.io| ==> ids.io[k] in Declared(GlobalVariables(p, ids))
  {
    hide Declarable, IoVariables, IoIds;
    var io := IoVariables(p, ids);
    var all := GlobalVariables(p, ids);
    assert Declarable(m, Inst(59, [ids.base + 21, ids.CbufVar(), 2])) by { OpaqueDeclarable(m, ids.base + 21, ids.CbufVar(), 2); }
    if p.usesTextures {
      assert ids.base + 19 in m.types && m.types[ids.base + 19] == Ptr(OtherTy);
      OpaqueDeclarable(m, ids.base + 19, ids.tex, 0);
    }
    assert |io| == |ids.io| by { IoLength(p, ids); }
    forall k | 0 <= k < |all| ensures Declarable(m, all[k]) {
      if k < |io| {
        IoDeclarable(p, ids, m, k);
      }
    }
    forall k | 0 <= k < |ids.io| ensures ids.io[k] in Declared(all) {
      IoDeclarable(p, ids, m, k);
      assert |io[k].args| == 3 by { DeclarableArgs(m, io[k]); }
      assert all[k] == io[k];
    }
  }

  lemma IoLength(p: Program, ids: Ids)
    requires ids.io == IoIds(p)
    ensures |IoVariables(p, ids)| == |ids.io|
  {
  }

  lemma DeclarableArgs(m: Machine, i: Inst)
    requires Declarable(m, i)
    ensures |i.args| == 3
  {
  }

  lemma OpaqueDeclarable(m: Machine, ptr: nat, id: nat, storage: nat)
    requires ptr in m.types && m.types[ptr] == Ptr(OtherTy) && id in m.vars && m.vars[id] == VOther
    ensures Declarable(m, Inst(59, [ptr, id, storage]))
  {
  }

  /** The module-level state: the environment, and the input and output variables declared. */
  ghost predicate Prepared(m: Machine, p: Program, env: Env, store: map<nat, Val>) {
    && EnvOk(m, env) && m.vars == store
    && env.Vec4F32() in m.types && m.types[env.Vec4F32()] == Vec4F32
    && env.F32FnPtr() in m.types && m.types[env.F32FnPtr()] == Ptr(F32)
    && (forall k :: 0 <= k < |env.ids.io| ==> env.ids.io[k] in m.declared)
  }

  lemma FunctionStartExec(fp: FloatOps, m: Machine, ids: Ids)
    requires ids.base in m.types && m.types[ids.base] == Void
    ensures Exec(fp, m, FunctionStart(ids)) == Some(Typed(m, ids.base + 27, OtherTy))
  {
    var b := ids.base;
    var t, f, l := Inst(33, [b + 27, b]), Inst(54, [b, ids.Func(), 0, b + 27]), Inst(248, [b + 28]);
    var n := Typed(m, b + 27, OtherTy);
    assert Step(fp, m, t) == Some(n) && Step(fp, n, f) == Some(n) && Step(fp, n, l) == Some(n);
    hide Step;
    ExecOne(fp, m, t);
    ExecOne(fp, n, f);
    ExecOne(fp, n, l);
    ExecAppend(fp, m, [t], [f]);
    ExecAppend(fp, m, [t] + [f], [l]);
    assert [t] + [f] + [l] == FunctionStart(ids);
  }

  lemma DecorationsExec(fp: FloatOps, m: Machine, p: Program, ids: Ids)
    requires ids.io == IoIds(p)
    ensures Exec(fp, m, Decorations(p, ids)) == Some(m)
  {
    NoEffect(fp, m, Decorations(p, ids));
  }

  /** Executing all module-level declarations and entering the function. */
  lemma PrologueExec(fp: FloatOps, p: Program, stale: nat, regs: Regs, store: map<nat, Val>) returns (m: Machine)
    requires InitialStore(p, stale, regs, store)
    ensures Exec(fp, Start(store), Globals(p, IdsOf(p, stale)) + FunctionStart(IdsOf(p, stale))) == Some(m)
    ensures Prepared(m, p, Env(IdsOf(p, stale)), store)
  {
    hide Exec, ModuleHead, Decorations, BaseTypes, Constants, GlobalVariables, FunctionStart, GprsOf, Prepared, Declared;
    var ids := IdsOf(p, stale);
    var b := ids.base;
    var m1 := Start(store).(vals := map[1 := VGlsl]);
    HeadExec(fp, Start(store), p, ids);
    DecorationsExec(fp, m1, p, ids);
    var m2 := BaseTypesExec(fp, m1, ids);
    var m3 := ConstantExec(fp, m2, b);
    GlobalsDeclarable(p, ids, m3, store);
    VariableExec(fp, m3, GlobalVariables(p, ids));
    var m4 := m3.(declared := m3.declared + Declared(GlobalVariables(p, ids)));
    FunctionStartExec(fp, m4, ids);
    m := Typed(m4, b + 27, OtherTy);
    JoinExec(fp, Start(store), ModuleHead(p, ids), Decorations(p, ids), BaseTypes(ids), Constants(b),
             GlobalVariables(p, ids), FunctionStart(ids), m1, m2, m3, m4, m);
    PreparedBy(m3, m, p, ids, store);
  }

  lemma PreparedBy(m: Machine, n: Machine, p: Program, ids: Ids, store: map<nat, Val>)
    requires n.types == m.types[ids.base + 27 := OtherTy] && n.vals == m.vals && n.vars == store
    requires Scalars(m, ids.base) && Pointers(m, ids.base) && ids.base > 2
    requires 1 in m.vals && m.vals[1] == VGlsl
    requires ids.base + 23 in m.vals && m.vals[ids.base + 23] == VF(0)
    requires ids.base + 24 in m.vals && m.vals[ids.base + 24] == VF(ONE_F32)
    requires forall k :: 0 <= k < |ids.io| ==> ids.io[k] in n.declared
    ensures Prepared(n, p, Env(ids), store)
  {
  }

  lemma JoinExec(fp: FloatOps, m: Machine, head: seq<Inst>, deco: seq<Inst>, types: seq<Inst>, constants: seq<Inst>,
                 vars: seq<Inst>, start: seq<Inst>, m1: Machine, m2: Machine, m3: Machine, m4: Machine, m5: Machine)
    requires Exec(fp, m, head) == Some(m1) && Exec(fp, m1, deco) == Some(m1) && Exec(fp, m1, types) == Some(m2)
    requires Exec(fp, m2, constants) == Some(m3) && Exec(fp, m3, vars) == Some(m4) && Exec(fp, m4, start) == Some(m5)
    ensures Exec(fp, m, head + deco + types + constants + vars + start) == Some(m5)
  {
    hide Exec;
    ExecAppend(fp, m, head, deco);
    ExecAppend(fp, m, head + deco, types);
    ExecAppend(fp, m, head + deco + types, constants);
    ExecAppend(fp, m, head + deco + types + constants, vars);
    ExecAppend(fp, m, head + deco + types + constants + vars, start);
  }

  // ── Register variables ─────────────────────────────────────────────────

  predicate OfRegister(vars: map<nat, nat>, ptr: nat, i: Inst) {
    i.op == 59 && |i.args| == 3 && i.args[0] == ptr && exists r :: r in vars && vars[r] == i.args[1]
  }

  /** Every declaration is that of a register, and every register's variable is declared. */
  ghost predicate Dense(g: Gprs, ptr: nat) {
    && (forall k :: 0 <= k < |g.code| ==> OfRegister(g.vars, ptr, g.code[k]))
    && (forall r :: r in g.vars ==> r < 256 && g.vars[r] in Declared(g.code))
  }

  lemma AddDense(ptr: nat, g: Gprs, o: Operand)
    requires Dense(g, ptr)
    ensures Dense(AddGpr(ptr, g, o), ptr)
  {
    if o.kind.KGpr? && o.Reg() !in g.vars {
      var decl := Inst(59, [ptr, g.next, 7]);
      DeclaredSnoc(g.code, decl);
      var h := AddGpr(ptr, g, o);
      assert h.vars[o.Reg()] == g.next;
      forall k | 0 <= k < |g.code| ensures OfRegister(h.vars, ptr, g.code[k]) {
        assert OfRegister(g.vars, ptr, g.code[k]);
        var r :| r in g.vars && g.vars[r] == g.code[k].args[1];
        assert h.vars[r] == g.vars[r];
      }
    }
  }

  lemma {:induction false} SourcesDense(ptr: nat, g: Gprs, i: IrInst, n: nat)
    requires n <= 3 && Dense(g, ptr)
    ensures Dense(AddSources(ptr, g, i, n), ptr)
  {
    hide Dense, AddGpr;
    if n > 0 {
      SourcesDense(ptr, g, i, n - 1);
      AddDense(ptr, AddSources(ptr, g, i, n - 1), i.Src(n - 1));
    }
  }

  lemma EmptyDense(ptr: nat, next: nat)
    ensures Dense(Gprs(map[], next, []), ptr)
  {
  }

  lemma {:induction false} BuildDense(ptr: nat, insts: seq<IrInst>, next: nat)
    ensures Dense(BuildGprs(ptr, insts, next), ptr)
  {
    hide Dense, AddGpr, AddSources;
    if insts == [] {
      EmptyDense(ptr, next);
    } else {
      var g := BuildGprs(ptr, insts[..|insts| - 1], next);
      var i := insts[|insts| - 1];
      BuildDense(ptr, insts[..|insts| - 1], next);
      AddDense(ptr, g, i.dest);
      SourcesDense(ptr, AddGpr(ptr, g, i.dest), i, i.srcCount);
    }
  }

  lemma RegistersDeclarable(m: Machine, p: Program, env: Env, g: Gprs, regs: Regs, store: map<nat, Val>)
    requires Prepared(m, p, env, store) && Dense(g, env.F32FnPtr())
    requires forall r :: r in g.vars ==> r < 256 && g.vars[r] in store && store[g.vars[r]] == VF(regs[r])
    ensures forall k :: 0 <= k < |g.code| ==> Declarable(m, g.code[k])
    ensures var n := m.(declared := m.declared + Declared(g.code));
            VarsHold(n, g.vars, regs) && Prepared(n, p, env, store)
  {
    forall k | 0 <= k < |g.code| ensures Declarable(m, g.code[k]) {
      assert OfRegister(g.vars, env.F32FnPtr(), g.code[k]);
      var r :| r in g.vars && g.vars[r] == g.code[k].args[1];
    }
  }

  // ── Inputs and outputs ─────────────────────────────────────────────────

  /** The outputs of the shader hold what its inputs held. */
  ghost predicate PassedThrough(p: Program, before: map<nat, Val>, after: map<nat, Val>) {
    && (p.IsVertex() ==>
          3 in before && 4 in before && 5 in after && 6 in after && after[5] == before[3] && after[6] == before[4])
    && (p.IsFragment() ==> 3 in before && 4 in after && after[4] == before[3])
  }

  /** Copying one vector variable to another. */
  lemma CopyExec(fp: FloatOps, m: Machine, ty: nat, id: nat, from: nat, to: nat)
    requires ty in m.types && m.types[ty] == Vec4F32
    requires from in m.declared && from in m.vars && m.vars[from].V4? && to in m.declared && to in m.vars && m.vars[to].V4?
    ensures Exec(fp, m, [Inst(61, [ty, id, from]), Inst(62, [to, id])]) ==
            Some(m.(vals := m.vals[id := m.vars[from]], vars := m.vars[to := m.vars[from]]))
  {
    var load, store := Inst(61, [ty, id, from]), Inst(62, [to, id]);
    var n := m.(vals := m.vals[id := m.vars[from]]);
    assert Step(fp, m, load) == Some(n) && Step(fp, n, store) == Some(n.(vars := n.vars[to := m.vars[from]]));
    hide Step;
    ExecOne(fp, m, load);
    ExecOne(fp, n, store);
    ExecAppend(fp, m, [load], [store]);
    assert [load] + [store] == [load, store];
  }

  /** Variables from lo on, the environment and the declarations are as they were. */
  ghost predicate IoOnly(m: Machine, n: Machine, lo: nat) {
    && n.types == m.types && n.declared == m.declared
    && (forall x :: x < lo && x in m.vals ==> x in n.vals && n.vals[x] == m.vals[x])
    && (forall x :: x > 6 && x in m.vars ==> x in n.vars && n.vars[x] == m.vars[x])
  }

  lemma VertexIoExec(fp: FloatOps, m: Machine, ty: nat, next: nat) returns (n: Machine)
    requires ty in m.types && m.types[ty] == Vec4F32
    requires forall x :: 3 <= x <= 6 ==> x in m.declared && x in m.vars && m.vars[x].V4?
    ensures Exec(fp, m, [Inst(61, [ty, next, 3]), Inst(62, [5, next])] + [Inst(61, [ty, next + 1, 4]), Inst(62, [6, next + 1])]) == Some(n)
    ensures IoOnly(m, n, next) && 5 in n.vars && 6 in n.vars && n.vars[5] == m.vars[3] && n.vars[6] == m.vars[4]
  {
    CopyExec(fp, m, ty, next, 3, 5);
    var m1 := m.(vals := m.vals[next := m.vars[3]], vars := m.vars[5 := m.vars[3]]);
    CopyExec(fp, m1, ty, next + 1, 4, 6);
    n := m1.(vals := m1.vals[next + 1 := m1.vars[4]], vars := m1.vars[6 := m1.vars[4]]);
    hide Exec;
    ExecAppend(fp, m, [Inst(61, [ty, next, 3]), Inst(62, [5, next])], [Inst(61, [ty, next + 1, 4]), Inst(62, [6, next + 1])]);
  }

  lemma FragmentIoExec(fp: FloatOps, m: Machine, ty: nat, next: nat) returns (n: Machine)
    requires ty in m.types && m.types[ty] == Vec4F32
    requires forall x :: 3 <= x <= 4 ==> x in m.declared && x in m.vars && m.vars[x].V4?
    ensures Exec(fp, m, [Inst(61, [ty, next, 3]), Inst(62, [4, next])]) == Some(n)
    ensures IoOnly(m, n, next) && 4 in n.vars && n.vars[4] == m.vars[3]
  {
    hide Exec;
    CopyExec(fp, m, ty, next, 3, 4);
    n := m.(vals := m.vals[next := m.vars[3]], vars := m.vars[4 := m.vars[3]]);
  }

  lemma IoExec(fp: FloatOps, m: Machine, p: Program, env: Env, store: map<nat, Val>, next: nat) returns (n: Machine)
    requires env.ids.io == IoIds(p) && Prepared(m, p, env, store) && env.Body() <= next
    requires forall k :: 0 <= k < |env.ids.io| ==> env.ids.io[k] in store && store[env.ids.io[k]].V4?
    ensures Exec(fp, m, IoBody(p, env, next)) == Some(n) && IoOnly(m, n, next) && PassedThrough(p, store, n.vars)
  {
    hide EnvOk, Exec;
    var io, ty := env.ids.io, env.Vec4F32();
    if p.IsVertex() {
      assert io[0] == 3 && io[1] == 4 && io[2] == 5 && io[3] == 6;
      n := VertexIoExec(fp, m, ty, next);
      assert IoBody(p, env, next) ==
             [Inst(61, [ty, next, 3]), Inst(62, [5, next])] + [Inst(61, [ty, next + 1, 4]), Inst(62, [6, next + 1])];
    } else if p.IsFragment() {
      assert io[0] == 3 && io[1] == 4;
      n := FragmentIoExec(fp, m, ty, next);
    } else {
      n := m;
      assert Exec(fp, m, []) == Some(m) by { ExecDone(fp, m, []); }
    }
  }

  lemma EnvAfterIo(m: Machine, n: Machine, env: Env, vars: map<nat, nat>, regs: Regs, lo: nat)
    requires EnvOk(m, env) && IoOnly(m, n, lo) && env.Body() <= lo && VarsHold(m, vars, regs)
    requires forall r :: r in vars ==> vars[r] > 6
    ensures EnvOk(n, env) && VarsHold(n, vars, regs)
  {
  }

  // ── The theorem ────────────────────────────────────────────────────────

  /** The registers' variables: distinct, above the other ids, one for every register operand. */
  lemma RegisterVariables(p: Program, stale: nat)
    ensures var g := GprsOf(p, stale); var env := Env(IdsOf(p, stale));
            && env.Body() <= g.next && Dense(g, env.F32FnPtr())
            && (forall r :: r in g.vars ==> env.Body() <= g.vars[r])
            && (forall r, q :: r in g.vars && q in g.vars && r != q ==> g.vars[r] != g.vars[q])
            && (forall k :: 0 <= k < |p.insts| ==> EmitterIds.Covered(g.vars, p.insts[k]))
  {
    hide Dense, EmitterIds.Covered;
    var env := Env(IdsOf(p, stale));
    EmitterIds.GprsFresh(env.F32FnPtr(), p.insts, env.Body());
    BuildDense(env.F32FnPtr(), p.insts, env.Body());
  }

  /** Up to the first instruction: the registers' variables hold the registers. */
  lemma EntryExec(fp: FloatOps, p: Program, stale: nat, regs: Regs, store: map<nat, Val>) returns (m: Machine)
    requires InitialStore(p, stale, regs, store)
    ensures var ids := IdsOf(p, stale); var g := GprsOf(p, stale);
            && Exec(fp, Start(store), Globals(p, ids) + FunctionStart(ids) + g.code + IoBody(p, Env(ids), g.next)) == Some(m)
            && Related(m, Env(ids), g.vars, regs) && PassedThrough(p, store, m.vars)
  {
    hide Exec, Globals, FunctionStart, GprsOf, IoBody, EnvOk, VarsHold, Dense, EmitterIds.Covered;
    var ids := IdsOf(p, stale);
    var env, g := Env(ids), GprsOf(p, stale);
    var front := Globals(p, ids) + FunctionStart(ids);
    RegisterVariables(p, stale);
    var m1 := PrologueExec(fp, p, stale, regs, store);
    RegistersDeclarable(m1, p, env, g, regs, store);
    VariableExec(fp, m1, g.code);
    var m2 := m1.(declared := m1.declared + Declared(g.code));
    m := IoExec(fp, m2, p, env, store, g.next);
    EnvAfterIo(m2, m, env, g.vars, regs, g.next);
    ExecAppend(fp, Start(store), front, g.code);
    ExecAppend(fp, Start(store), front + g.code, IoBody(p, env, g.next));
  }

  lemma NoKil(p: Program)
    requires StraightLine(p)
    ensures Epilogue(p.insts) == [Inst(253, [])] + [Inst(56, [])]
  {
    forall k | 0 <= k < |p.insts| ensures p.insts[k].opcode != Ctl(KIL) {
      if k < |p.insts| - 1 && p.insts[k].opcode != Ctl(NOP) {
        ScalarNotControl(p.insts[k]);
      }
    }
  }

  lemma PassedKept(p: Program, store: map<nat, Val>, m: Machine, n: Machine, vars: map<nat, nat>)
    requires PassedThrough(p, store, m.vars) && OthersKept(m, n, vars) && forall r :: r in vars ==> vars[r] > 6
    ensures PassedThrough(p, store, n.vars)
  {
  }

  /** The instructions of a module before its return. */
  function BeforeReturn(p: Program, stale: nat): seq<Inst> {
    var ids := IdsOf(p, stale);
    var g := GprsOf(p, stale);
    Globals(p, ids) + FunctionStart(ids) + g.code + IoBody(p, Env(ids), g.next) + FlowOf(p, stale).code
  }

  /** Executing a module up to its return. */
  lemma BodyRuns(fp: FloatOps, p: Program, stale: nat, regs: Regs, store: map<nat, Val>) returns (m: Machine)
    requires StraightLine(p) && InitialStore(p, stale, regs, store)
    ensures Exec(fp, Start(store), BeforeReturn(p, stale)) == Some(m)
    ensures VarsHold(m, GprsOf(p, stale).vars, IrRun(fp, p.insts, regs)) && PassedThrough(p, store, m.vars)
  {
    hide Exec, Globals, FunctionStart, GprsOf, IoBody, EnvOk, VarsHold, Dense, EmitterIds.Covered, Flow, CfgOf;
    hide InitialStore, PassedThrough, OthersKept, StraightLine, Quiet, FlowStart;
    var ids := IdsOf(p, stale);
    var env, g := Env(ids), GprsOf(p, stale);
    RegisterVariables(p, stale);
    var front := Globals(p, ids) + FunctionStart(ids) + g.code + IoBody(p, env, g.next);
    var m1 := EntryExec(fp, p, stale, regs, store);
    var s := FlowStart(p, g.next + IoCount(p));
    assert p.insts != [] by { NotEmpty(p); }
    StartQuiet(p, g.next + IoCount(p), env.Body());
    m := FlowSim(fp, m1, env, g.vars, p, regs, |p.insts|, s);
    assert p.insts[..|p.insts|] == p.insts;
    PassedKept(p, store, m1, m, g.vars);
    ExecAppend(fp, Start(store), front, FlowOf(p, stale).code);
  }

  /** A straight-line module is its code, a return and the end of the function. */
  lemma StraightModule(p: Program, stale: nat)
    requires StraightLine(p)
    ensures Module(p, stale) == BeforeReturn(p, stale) + [Inst(253, []), Inst(56, [])]
  {
    hide Globals, FunctionStart, GprsOf, IoBody, Flow, CfgOf, Epilogue, StraightLine;
    NoKil(p);
    assert [Inst(253, [])] + [Inst(56, [])] == [Inst(253, []), Inst(56, [])];
  }

  /** Running the instructions of a module. */
  lemma ModuleRuns(fp: FloatOps, p: Program, stale: nat, regs: Regs, store: map<nat, Val>) returns (m: Machine)
    requires StraightLine(p) && InitialStore(p, stale, regs, store)
    ensures Run(fp, Start(store), Module(p, stale)) == Some(m)
    ensures VarsHold(m, GprsOf(p, stale).vars, IrRun(fp, p.insts, regs)) && PassedThrough(p, store, m.vars)
  {
    hide Exec, GprsOf, VarsHold, InitialStore, PassedThrough, StraightLine, BeforeReturn, Module;
    m := BodyRuns(fp, p, stale, regs, store);
    StraightModule(p, stale);
    RunAfterExec(fp, Start(store), BeforeReturn(p, stale), [Inst(253, []), Inst(56, [])]);
  }

  lemma StartQuiet(p: Program, next: nat, lo: nat)
    requires p.insts != [] && lo <= next
    ensures Quiet(FlowStart(p, next), p.insts[0].pc, lo) && FlowStart(p, next).code == []
  {
  }

  lemma NotEmpty(p: Program)
    requires StraightLine(p)
    ensures p.insts != []
  {
  }

  /**
   For every straight-line program and every initial register file, the words
   the emitter returns split into a module that runs without getting stuck and
   ends with each register's variable holding what the program leaves in that
   register, and with the shader's outputs holding its inputs.
   */
  lemma EmittedCodeSimulates(fp: FloatOps, p: Program, stale: nat, bound: nat, regs: Regs, store: map<nat, Val>)
    requires StraightLine(p) && InitialStore(p, stale, regs, store)
    ensures var code := Split(ModuleWords(p, stale, bound)[5..]);
            && code.Some? && Run(fp, Start(store), code.value).Some?
            && var vars := Run(fp, Start(store), code.value).value.vars;
            && (forall r :: r in GprsOf(p, stale).vars ==>
                  r < 256 && GprsOf(p, stale).vars[r] in vars
                  && vars[GprsOf(p, stale).vars[r]] == VF(IrRun(fp, p.insts, regs)[r]))
            && PassedThrough(p, store, vars)
  {
    hide Module, ModuleWords, GprsOf, Run, Split, PassedThrough, StraightLine, InitialStore;
    EmitterLayout.PhysicalLayout(p, stale, bound);
    var m := ModuleRuns(fp, p, stale, regs, store);
  }

  // ── Definition before use ──────────────────────────────────────────────

  /** The ids an instruction refers to, other than labels. */
  function Uses(i: Inst): set<nat> {
    var a := i.args;
    if i.op == 54 && |a| == 4 then {a[0], a[3]}
    else if i.op == 61 && |a| == 3 then {a[0], a[2]}
    else if i.op == 62 && |a| == 2 then {a[0], a[1]}
    else if i.op == 12 && |a| >= 4 then {a[0], a[2]} + (set x | x in a[4..])
    else if 100 <= i.op <= 140 && |a| >= 2 then {a[0]} + (set x | x in a[2..])
    else if (i.op == 23 || i.op == 25 || i.op == 27 || i.op == 29 || i.op == 30 || i.op == 33) && |a| > 1 then {a[1]}
    else if i.op == 32 && |a| == 3 then {a[2]}
    else if (41 <= i.op <= 43 || i.op == 59) && |a| > 0 then {a[0]}
    else {}
  }

  /** The ids the machine has seen defined. */
  function Seen(m: Machine): set<nat> {
    m.types.Keys + m.vals.Keys + m.declared
  }

  lemma {:induction false} OperandsSeen(m: Machine, ids: seq<nat>)
    requires Operands(m, ids).Some?
    ensures forall x :: x in ids ==> x in m.vals
    decreases |ids|
  {
    if ids != [] {
      OperandsSeen(m, ids[1..]);
    }
  }

  /** A step that is not stuck uses only ids seen before and defines only its result. */
  lemma StepUses(fp: FloatOps, m: Machine, i: Inst)
    requires Step(fp, m, i).Some?
    ensures Uses(i) <= Seen(m) && Seen(Step(fp, m, i).value) <= Seen(m) + Result(i)
  {
    hide Apply, ApplyExt;
    if i.op == 12 && |i.args| >= 4 {
      OperandsSeen(m, i.args[4..]);
    } else if 100 <= i.op <= 140 && |i.args| >= 2 {
      OperandsSeen(m, i.args[2..]);
    }
  }

  lemma {:induction false} ExecUses(fp: FloatOps, m: Machine, code: seq<Inst>)
    requires Exec(fp, m, code).Some?
    ensures forall k :: 0 <= k < |code| ==> Uses(code[k]) <= Seen(m) + Defs(code[..k])
    ensures Seen(Exec(fp, m, code).value) <= Seen(m) + Defs(code)
    decreases |code|
  {
    hide Step, Uses, Seen, Result;
    if code == [] {
    } else {
      var last := |code| - 1;
      var init := code[..last];
      assert code == init + [code[last]];
      ExecAppend(fp, m, init, [code[last]]);
      ExecUses(fp, m, init);
      var n := Exec(fp, m, init).value;
      ExecOne(fp, n, code[last]);
      StepUses(fp, n, code[last]);
      forall k | 0 <= k < |code| ensures Uses(code[k]) <= Seen(m) + Defs(code[..k]) {
        if k < last {
          assert init[k] == code[k] && init[..k] == code[..k];
        }
      }
    }
  }

  /** Some interpretation of the float operations. */
  function SomeFloats(): FloatOps {
    var one := (a: u32) => a;
    var two := (a: u32, b: u32) => a;
    FloatOps(two, two, two, two, one, one, two, two, (a: u32, b: u32, c: u32) => a,
             one, one, one, one, one, one, one, one, one, one, one, one, one, one)
  }

  function ZeroValue(ids: Ids, x: nat): Val {
    if x in ids.io then V4(0, 0, 0, 0) else if x < ids.base then VOther else VF(0)
  }

  /** A store the module can start from. */
  function ZeroStore(p: Program, stale: nat): map<nat, Val> {
    var ids := IdsOf(p, stale);
    map x | x in GprsOf(p, stale).vars.Values + (set y | y in ids.io) + {ids.CbufVar(), ids.tex} :: ZeroValue(ids, x)
  }

  lemma FixedIds(p: Program, stale: nat)
    ensures var ids := IdsOf(p, stale);
            ids.CbufVar() < ids.base && ids.CbufVar() !in ids.io && (p.usesTextures ==> ids.tex < ids.base && ids.tex !in ids.io)
    ensures forall x :: x in IdsOf(p, stale).io ==> x < IdsOf(p, stale).base
  {
  }

  lemma ZeroStoreInitial(p: Program, stale: nat)
    ensures InitialStore(p, stale, seq(256, i => 0), ZeroStore(p, stale))
  {
    hide GprsOf, EmitterIds.Covered, IdsOf;
    FixedIds(p, stale);
    RegisterVariables(p, stale);
  }

  /**
   In the module of a straight-line program every instruction uses only types,
   constants, variables and results that earlier instructions define.
   */
  lemma DefinedBeforeUse(p: Program, stale: nat)
    requires StraightLine(p)
    ensures forall k :: 0 <= k < |Module(p, stale)| ==> Uses(Module(p, stale)[k]) <= Defs(Module(p, stale)[..k])
  {
    hide Exec, GprsOf, VarsHold, InitialStore, PassedThrough, StraightLine, BeforeReturn, Module, ZeroStore, IrRun;
    var fp, store, code := SomeFloats(), ZeroStore(p, stale), BeforeReturn(p, stale);
    ZeroStoreInitial(p, stale);
    var m := BodyRuns(fp, p, stale, seq(256, i => 0), store);
    ExecUses(fp, Start(store), code);
    StraightModule(p, stale);
    var whole := Module(p, stale);
    forall k | 0 <= k < |whole| ensures Uses(whole[k]) <= Defs(whole[..k]) {
      if k < |code| {
        assert whole[..k] == code[..k] && whole[k] == code[k];
      }
    }
  }
}
