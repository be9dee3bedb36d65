/**
 The debugger's breakpoints as an overlay on code memory: BRK words written over
 code, the saved words, and what each operation keeps of the original code.
 */
module Debugger {
  import opened Common

  type Addr = x: int | 0 <= x < 0x1_0000_0000_0000_0000

  const BRK_BASE: u32 := 0xD420_0000
  const BRK_TAG_DEBUG: nat := 0x6000

  /** The tag of an address's debug breakpoint: bits of the page offset under the debug marker. */
  function DebugTag(addr: Addr): (tag: nat)
    ensures 0x6000 <= tag < 0x7000
  {
    BRK_TAG_DEBUG + addr % 0x1000
  }

  /** BRK with the tag as its 16-bit immediate, at bit 5. */
  function MakeBrk(addr: Addr): (word: u32)
    ensures word != 0
  {
    BRK_BASE + DebugTag(addr) * 0x20
  }

  /** The immediate of a BRK word is the tag again, and only addresses with the same page offset share it. */
  lemma BrkTag(addr: Addr, other: Addr)
    ensures (MakeBrk(addr) / 0x20) % 0x1_0000 == DebugTag(addr)
    ensures DebugTag(addr) / 0x1000 * 0x1000 == BRK_TAG_DEBUG
    ensures MakeBrk(addr) == MakeBrk(other) <==> addr % 0x1000 == other % 0x1000
  {
    assert BRK_BASE / 0x20 == 0x6A1_0000;
  }

  datatype Breakpoint = Breakpoint(enabled: bool, hits: nat, temporary: bool, saved: u32, patched: bool)

  const NEW_BREAKPOINT := Breakpoint(true, 0, false, 0, false)

  type Words = map<Addr, u32>
  type Breakpoints = map<Addr, Breakpoint>

  // ── The overlay ────────────────────────────────────────────────────────

  predicate PatchedAt(bps: Breakpoints, a: Addr) {
    a in bps && bps[a].patched
  }

  /** Code memory with each patched word replaced by its saved word. */
  function Underlying(words: Words, bps: Breakpoints): Words {
    map a | a in words :: if PatchedAt(bps, a) then bps[a].saved else words[a]
  }

  /** Under the patches lies the original code, and each patched word is its address's BRK. */
  ghost predicate Overlay(words: Words, bps: Breakpoints, original: Words) {
    && words.Keys == original.Keys
    && (forall a :: a in words ==> SlotOk(words, bps, original, a))
    && (forall a :: a in bps && bps[a].patched ==> a in words)
  }

  ghost predicate SlotOk(words: Words, bps: Breakpoints, original: Words, a: Addr)
    requires a in words && a in original
  {
    if PatchedAt(bps, a) then words[a] == MakeBrk(a) && bps[a].saved == original[a] else words[a] == original[a]
  }

  lemma OverlayUnderlying(words: Words, bps: Breakpoints, original: Words)
    requires Overlay(words, bps, original)
    ensures Underlying(words, bps) == original
  {
    forall a | a in words ensures Underlying(words, bps)[a] == original[a] {
      assert SlotOk(words, bps, original, a);
    }
  }

  /** A word that is not patched can be saved and patched. */
  lemma PatchKeeps(words: Words, bps: Breakpoints, original: Words, a: Addr, bp: Breakpoint)
    requires Overlay(words, bps, original) && a in words && !PatchedAt(bps, a)
    ensures Overlay(words[a := MakeBrk(a)], bps[a := bp.(saved := words[a], patched := true)], original)
  {
    var w, b := words[a := MakeBrk(a)], bps[a := bp.(saved := words[a], patched := true)];
    assert SlotOk(words, bps, original, a);
    forall x | x in w ensures SlotOk(w, b, original, x) {
      assert SlotOk(words, bps, original, x);
    }
  }

  /** Writing a saved word back and unmarking, or forgetting, its breakpoint keeps the overlay. */
  lemma UnpatchKeeps(words: Words, bps: Breakpoints, original: Words, a: Addr, bps': Breakpoints)
    requires Overlay(words, bps, original) && PatchedAt(bps, a)
    requires !PatchedAt(bps', a) && forall x :: x != a ==> (x in bps <==> x in bps') && (x in bps ==> bps'[x] == bps[x])
    ensures a in words && Overlay(words[a := bps[a].saved], bps', original)
  {
    var w := words[a := bps[a].saved];
    assert SlotOk(words, bps, original, a);
    forall x | x in w ensures SlotOk(w, bps', original, x) {
      assert SlotOk(words, bps, original, x);
    }
  }

  /** A change of the breakpoints that leaves the patches alone keeps the overlay. */
  lemma SamePatchesKeep(words: Words, bps: Breakpoints, original: Words, bps': Breakpoints)
    requires Overlay(words, bps, original)
    requires forall a :: PatchedAt(bps', a) <==> PatchedAt(bps, a)
    requires forall a :: PatchedAt(bps, a) && PatchedAt(bps', a) ==> bps'[a].saved == bps[a].saved
    ensures Overlay(words, bps', original)
  {
    forall a | a in words ensures SlotOk(words, bps', original, a) {
      assert SlotOk(words, bps, original, a);
    }
  }

  /** A patched word whose saved word is zero: it is never written back. */
  predicate Stuck(bps: Breakpoints, a: Addr) {
    PatchedAt(bps, a) && bps[a].saved == 0
  }

  /** Forgetting a stuck breakpoint leaves its BRK in the code for good. */
  lemma StuckLost(words: Words, bps: Breakpoints, original: Words, a: Addr)
    requires Overlay(words, bps, original) && Stuck(bps, a)
    ensures !Overlay(words, bps - {a}, original)
  {
    assert SlotOk(words, bps, original, a);
    assert !SlotOk(words, bps - {a}, original, a);
  }

  /** Over code without zero words nothing is ever stuck. */
  lemma NonzeroNeverStuck(words: Words, bps: Breakpoints, original: Words)
    requires Overlay(words, bps, original) && forall a :: a in original ==> original[a] != 0
    ensures forall a :: !Stuck(bps, a)
  {
    forall a ensures !Stuck(bps, a) {
      if PatchedAt(bps, a) {
        assert SlotOk(words, bps, original, a);
      }
    }
  }

  /** Code memory is the original code exactly when nothing is patched. */
  lemma OriginalWhenUnpatched(words: Words, bps: Breakpoints, original: Words)
    requires Overlay(words, bps, original) && forall a :: PatchedAt(bps, a) ==> bps[a].saved == 0
    ensures words == original <==> forall a :: !PatchedAt(bps, a)
  {
  }

  // ── The debugger ───────────────────────────────────────────────────────

  /** Guest code memory: the words at the addresses it can reach. */
  class CodeMemory {
    var words: Words

    constructor (words: Words)
      ensures this.words == words
    {
      this.words := words;
    }
  }

  class EmuDebugger {
    var breakpoints: Breakpoints
    var memory: CodeMemory?
    var lastPc: Addr
    var paused: bool
    var stepping: bool
    var stepAddr: Addr
    /** The code as it was before any patch. */
    ghost var original: Words

    /** Without memory nothing is patched. */
    ghost predicate Valid()
      reads this, memory
    {
      if memory == null then forall a :: a in breakpoints ==> !breakpoints[a].patched
      else Overlay(memory.words, breakpoints, original)
    }

    constructor ()
      ensures Valid() && breakpoints == map[] && memory == null && !paused && !stepping
    {
      breakpoints, memory, lastPc, paused, stepping, stepAddr := map[], null, 0, false, false, 0;
      original := map[];
    }

    /** Memory becomes available; breakpoints set before wait for the next apply. */
    method SetMemory(mem: CodeMemory)
      requires Valid() && memory == null
      modifies this`memory, this`original
      ensures Valid() && memory == mem && original == mem.words
    {
      memory := mem;
      original := mem.words;
      assert Overlay(mem.words, breakpoints, mem.words) by {
        forall a | a in mem.words ensures SlotOk(mem.words, breakpoints, mem.words, a) {}
      }
    }

    /** Saves the word at an address and writes its BRK, where memory reaches. */
    method Patch(a: Addr)
      requires Valid() && a in breakpoints && !breakpoints[a].patched && memory != null
      modifies this`breakpoints, memory`words
      ensures Valid() && breakpoints.Keys == old(breakpoints.Keys)
      ensures breakpoints == old(breakpoints)[a := breakpoints[a]]
      ensures a in old(memory.words) ==>
                memory.words == old(memory.words)[a := MakeBrk(a)]
                && breakpoints[a] == old(breakpoints[a]).(saved := old(memory.words)[a], patched := true)
      ensures a !in old(memory.words) ==> memory.words == old(memory.words) && breakpoints == old(breakpoints)
    {
      if a in memory.words {
        PatchKeeps(memory.words, breakpoints, original, a, breakpoints[a]);
        breakpoints := breakpoints[a := breakpoints[a].(saved := memory.words[a], patched := true)];
        memory.words := memory.words[a := MakeBrk(a)];
      }
    }

    /** Writes a saved word back, unless it is zero. */
    method Unpatch(a: Addr)
      requires Valid() && PatchedAt(breakpoints, a)
      modifies this`breakpoints, memory
      ensures Valid()
      ensures breakpoints == old(breakpoints)[a := old(breakpoints[a]).(patched := Stuck(old(breakpoints), a))]
    {
      var bp := breakpoints[a];
      if bp.saved != 0 {
        UnpatchKeeps(memory.words, breakpoints, original, a, breakpoints[a := bp.(patched := false)]);
        memory.words := memory.words[a := bp.saved];
        breakpoints := breakpoints[a := bp.(patched := false)];
      } else {
        assert breakpoints[a := bp] == breakpoints;
      }
    }

    /** Patches every enabled breakpoint that memory reaches; nothing else about the breakpoints changes. */
    method ApplyBreakpoints()
      requires Valid()
      modifies this`breakpoints, memory
      ensures Valid() && breakpoints.Keys == old(breakpoints.Keys)
      ensures forall a :: a in breakpoints ==>
                breakpoints[a] == old(breakpoints[a]).(saved := breakpoints[a].saved, patched := breakpoints[a].patched)
      ensures forall a :: a in breakpoints ==>
                (breakpoints[a].patched <==>
                   old(breakpoints[a].patched) || (breakpoints[a].enabled && memory != null && a in memory.words))
    {
      var rest := breakpoints.Keys;
      while rest != {}
        invariant Valid() && rest <= breakpoints.Keys == old(breakpoints.Keys)
        invariant memory != null ==> memory.words.Keys == old(if memory != null then memory.words.Keys else {})
        invariant forall a :: a in breakpoints ==>
                    breakpoints[a] == old(breakpoints[a]).(saved := breakpoints[a].saved, patched := breakpoints[a].patched)
        invariant forall a :: a in breakpoints && a in rest ==> breakpoints[a] == old(breakpoints[a])
        invariant forall a :: a in breakpoints && a !in rest ==>
                    (breakpoints[a].patched <==>
                       old(breakpoints[a].patched) || (breakpoints[a].enabled && memory != null && a in memory.words))
        decreases rest
      {
        var a :| a in rest;
        if breakpoints[a].enabled && !breakpoints[a].patched && memory != null {
          Patch(a);
        }
        rest := rest - {a};
      }
    }

    /**
     Writes back every saved word that is not zero. Code memory is then the
     original code if and only if no patched word was zero.
     */
    method RestoreBreakpoints()
      requires Valid()
      modifies this`breakpoints, memory
      ensures Valid() && breakpoints.Keys == old(breakpoints.Keys)
      ensures forall a :: a in breakpoints ==> breakpoints[a] == old(breakpoints[a]).(patched := Stuck(old(breakpoints), a))
      ensures memory != null ==> (memory.words == original <==> forall a :: !Stuck(old(breakpoints), a))
    {
      ghost var before := breakpoints;
      var rest := breakpoints.Keys;
      while rest != {}
        invariant Valid() && rest <= breakpoints.Keys == before.Keys
        invariant forall a :: a in breakpoints ==>
                    breakpoints[a] == if a in rest then before[a] else before[a].(patched := Stuck(before, a))
        decreases rest
      {
        var a :| a in rest;
        if breakpoints[a].patched {
          Unpatch(a);
        }
        rest := rest - {a};
      }
      if memory != null {
        OriginalWhenUnpatched(memory.words, breakpoints, original);
        assert forall a :: PatchedAt(breakpoints, a) <==> Stuck(before, a);
      }
    }

    /** A new breakpoint is patched at once where memory reaches; an old one is enabled again. */
    method SetBreakpoint(a: Addr)
      requires Valid()
      modifies this`breakpoints, memory
      ensures Valid()
      ensures a == 0 ==> breakpoints == old(breakpoints)
      ensures a != 0 && a in old(breakpoints) ==> breakpoints == old(breakpoints)[a := old(breakpoints[a]).(enabled := true)]
      ensures a != 0 && a !in old(breakpoints) ==>
                a in breakpoints && breakpoints == old(breakpoints)[a := breakpoints[a]]
                && breakpoints[a].enabled && breakpoints[a].hits == 0 && !breakpoints[a].temporary
                && (breakpoints[a].patched <==> memory != null && a in memory.words)
    {
      if a == 0 {
        return;
      }
      var bps := breakpoints[a := if a in breakpoints then breakpoints[a].(enabled := true) else NEW_BREAKPOINT];
      if memory != null {
        SamePatchesKeep(memory.words, breakpoints, original, bps);
      }
      var fresh_ := a !in breakpoints;
      breakpoints := bps;
      if fresh_ && memory != null {
        Patch(a);
      }
    }

    /** Forgets a breakpoint, writing its word back: unless the word is stuck, the overlay is kept. */
    method RemoveBreakpoint(a: Addr)
      requires Valid()
      modifies this`breakpoints, memory
      ensures breakpoints == old(breakpoints) - {a}
      ensures Valid() <==> !Stuck(old(breakpoints), a)
    {
      if a !in breakpoints {
        assert breakpoints - {a} == breakpoints;
        return;
      }
      var bp := breakpoints[a];
      if bp.patched {
        if bp.saved != 0 {
          UnpatchKeeps(memory.words, breakpoints, original, a, breakpoints - {a});
          memory.words := memory.words[a := bp.saved];
        } else {
          StuckLost(memory.words, breakpoints, original, a);
        }
      } else if memory != null {
        SamePatchesKeep(memory.words, breakpoints, original, breakpoints - {a});
      }
      breakpoints := breakpoints - {a};
    }

    /** Whether an enabled breakpoint is at an address. */
    predicate Hit(a: Addr)
      reads this
    {
      a in breakpoints && breakpoints[a].enabled
    }

    /** Counts a hit and takes the patch away until the next apply. */
    method CountHit(a: Addr)
      requires Valid() && Hit(a)
      modifies this`breakpoints, memory
      ensures Valid()
      ensures breakpoints == old(breakpoints)[a := old(breakpoints[a]).(hits := old(breakpoints[a].hits) + 1, patched := Stuck(old(breakpoints), a))]
    {
      var counted := breakpoints[a := breakpoints[a].(hits := breakpoints[a].hits + 1)];
      if memory != null {
        SamePatchesKeep(memory.words, breakpoints, original, counted);
      }
      breakpoints := counted;
      if breakpoints[a].patched {
        Unpatch(a);
      }
    }

    /** Drops a breakpoint that was hit, whatever its word. */
    method Forget(a: Addr)
      requires Valid() && PatchedAt(breakpoints, a) == Stuck(breakpoints, a)
      modifies this`breakpoints
      ensures breakpoints == old(breakpoints) - {a}
      ensures Valid() <==> !Stuck(old(breakpoints), a)
    {
      if PatchedAt(breakpoints, a) {
        StuckLost(memory.words, breakpoints, original, a);
      } else if memory != null {
        SamePatchesKeep(memory.words, breakpoints, original, breakpoints - {a});
      }
      breakpoints := breakpoints - {a};
    }

    /** A trap at an address: handled when an enabled breakpoint is hit there, or a step ends there. */
    method OnBreakpoint(a: Addr, pc: Addr) returns (handled: bool)
      requires Valid()
      modifies this`breakpoints, this`lastPc, this`paused, this`stepping, memory
      ensures handled <==> old(Hit(a)) || (old(stepping) && a == old(stepAddr))
      ensures lastPc == pc && paused == (old(paused) || handled)
      ensures stepping == (old(stepping) && a != old(stepAddr))
      ensures !old(Hit(a)) ==> breakpoints == old(breakpoints)
      ensures old(Hit(a)) ==> (a in breakpoints <==> !old(breakpoints[a].temporary))
      ensures old(Hit(a)) && a in breakpoints ==>
                breakpoints[a] == old(breakpoints[a]).(hits := old(breakpoints[a].hits) + 1, patched := Stuck(old(breakpoints), a))
      ensures Valid() <==> !(old(Hit(a)) && old(breakpoints[a].temporary) && Stuck(old(breakpoints), a))
    {
      lastPc := pc;
      handled := Hit(a);
      if handled {
        var temporary := breakpoints[a].temporary;
        CountHit(a);
        if temporary {
          Forget(a);
        }
        paused := true;
      }
      if stepping && a == stepAddr {
        paused, stepping, handled := true, false, true;
      }
    }

    method Pause()
      modifies this`paused
      ensures paused
    {
      paused := true;
    }

    /** Every enabled breakpoint within reach is patched again before the guest goes on. */
    method Continue()
      requires Valid()
      modifies this`breakpoints, this`paused, this`stepping, memory
      ensures Valid() && !paused && !stepping && breakpoints.Keys == old(breakpoints.Keys)
      ensures forall a :: a in breakpoints && breakpoints[a].enabled && memory != null && a in memory.words ==> breakpoints[a].patched
    {
      ApplyBreakpoints();
      paused, stepping := false, false;
    }

    method StepOver()
      requires Valid()
      modifies this`breakpoints, this`paused, this`stepping, this`stepAddr, memory
      ensures Valid() && !paused && stepping && stepAddr == (lastPc + 4) % 0x1_0000_0000_0000_0000
      ensures breakpoints.Keys == old(breakpoints.Keys)
      ensures forall a :: a in breakpoints && breakpoints[a].enabled && memory != null && a in memory.words ==> breakpoints[a].patched
    {
      ApplyBreakpoints();
      paused, stepping, stepAddr := false, true, (lastPc + 4) % 0x1_0000_0000_0000_0000;
    }
  }

  // ── Runs ───────────────────────────────────────────────────────────────

  datatype Op = Apply | Restore | Set(a: Addr) | Remove(a: Addr) | Trap(a: Addr, pc: Addr) | Pause | Resume | Step

  /** Over code without zero words any operation keeps the overlay. */
  method Perform(d: EmuDebugger, op: Op)
    requires d.Valid() && d.memory != null && forall a :: a in d.original ==> d.original[a] != 0
    modifies d, d.memory
    ensures d.Valid() && d.memory == old(d.memory) && d.original == old(d.original)
  {
    hide Overlay;
    NonzeroNeverStuck(d.memory.words, d.breakpoints, d.original);
    match op
    case Apply => d.ApplyBreakpoints();
    case Restore => d.RestoreBreakpoints();
    case Set(a) => d.SetBreakpoint(a);
    case Remove(a) => d.RemoveBreakpoint(a);
    case Trap(a, pc) => var handled := d.OnBreakpoint(a, pc);
    case Pause => d.Pause();
    case Resume => d.Continue();
    case Step => d.StepOver();
  }

  /**
   Whatever is done with a debugger over code without zero words, restoring the
   breakpoints at the end brings back the code as it was.
   */
  method Debug(mem: CodeMemory, ops: seq<Op>) returns (d: EmuDebugger)
    requires forall a :: a in mem.words ==> mem.words[a] != 0
    modifies mem
    ensures mem.words == old(mem.words) && d.memory == mem && d.Valid()
    ensures forall a :: !PatchedAt(d.breakpoints, a)
  {
    hide Overlay;
    d := new EmuDebugger();
    d.SetMemory(mem);
    for k := 0 to |ops|
      invariant fresh(d) && d.Valid() && d.memory == mem && d.original == old(mem.words)
    {
      Perform(d, ops[k]);
    }
    NonzeroNeverStuck(mem.words, d.breakpoints, d.original);
    d.RestoreBreakpoints();
  }
}
