/**
 The rewriting of guest code before it runs natively, and the trap handler that
 undoes it: system calls become BRK words whose traps dispatch the call, and
 reads of the thread pointer become loads of a fixed address.
 */
module SvcPatcher {
  import opened Common

  // ── Words ──────────────────────────────────────────────────────────────

  const SVC_MASK: bv32 := 0xFFE0_001E
  const SVC_PATTERN: bv32 := 0xD400_0000
  const MAX_SVC_ID: bv32 := 0x100
  const BRK_BASE: bv32 := 0xD420_0000
  const BRK_TAG_BASE: bv32 := 0x1000
  const BRK_TAG_DEBUG: bv32 := 0x6000
  const MRS_MASK: bv32 := 0xFFFF_FFE0
  const MRS_PATTERN: bv32 := 0xD53B_D060

  predicate IsSvc(w: bv32) { w & SVC_MASK == SVC_PATTERN }
  function SvcNumber(w: bv32): bv32 { (w >> 5) & 0xFFFF }

  predicate Known(svc: bv32) { svc < MAX_SVC_ID }

  /** A system call that is patched: its number is below the limit. */
  predicate Call(w: bv32) { IsSvc(w) && Known(SvcNumber(w)) }

  /** The tag of a call's BRK word, the call of a tag, and the tags set aside for the debugger. */
  function TagOf(svc: bv32): bv32 { BRK_TAG_BASE + svc }
  function CallOf(tag: bv32): bv32 { tag - BRK_TAG_BASE }
  predicate IsDebugTag(tag: bv32) { tag & 0xF000 == BRK_TAG_DEBUG }
  predicate IsCallTag(tag: bv32) { BRK_TAG_BASE <= tag < BRK_TAG_BASE + MAX_SVC_ID }

  predicate IsThreadPointerRead(w: bv32) { w & MRS_MASK == MRS_PATTERN }
  function Destination(w: bv32): bv32 { w & 0x1F }

  predicate IsBrk(w: bv32) { w & 0xFFE0_001F == BRK_BASE }
  function BrkImmediate(w: bv32): bv32 { (w >> 5) & 0xFFFF }

  function BrkWord(svc: bv32): bv32 {
    BRK_BASE | ((TagOf(svc) & 0xFFFF) << 5)
  }

  /** MOVZ Xd, #high, LSL #32. */
  function FixedTlsLoad(high: bv32, d: bv32): bv32 {
    0xD280_0000 | (2 << 21) | (high << 5) | d
  }

  /** What a 64-bit MOVZ loads, as the high and the low half of the register. */
  function MovzValue(w: bv32): Option<(bv32, bv32)> {
    if w & 0xFF80_0000 != 0xD280_0000 then None
    else
      var imm := (w >> 5) & 0xFFFF;
      var hw := (w >> 21) & 3;
      Some(if hw == 0 then (0, imm) else if hw == 1 then (0, imm << 16) else if hw == 2 then (imm, 0) else (imm << 16, 0))
  }

  /** The fixed thread-local storage lies at high * 2^32 for a high of 1 to 15; 0 stands for none. */
  type TlsHigh = h: bv32 | h <= 15

  function PatchedWord(w: bv32, tls: TlsHigh): bv32 {
    if Call(w) then BrkWord(SvcNumber(w))
    else if tls != 0 && IsThreadPointerRead(w) then FixedTlsLoad(tls, Destination(w))
    else w
  }

  /** A patched call is a BRK whose immediate is the call's tag. */
  lemma BrkCarriesNumber(w: bv32)
    requires Call(w)
    ensures IsBrk(BrkWord(SvcNumber(w))) && BrkImmediate(BrkWord(SvcNumber(w))) == TagOf(SvcNumber(w))
  {
  }

  /** A read of the thread pointer becomes a load of exactly the fixed address into the same register. */
  lemma TlsLoadExact(w: bv32, tls: TlsHigh)
    requires IsThreadPointerRead(w) && tls != 0
    ensures MovzValue(PatchedWord(w, tls)) == Some((tls, 0)) && Destination(PatchedWord(w, tls)) == Destination(w)
  {
  }

  /** A patched word is left alone by a second patch. */
  lemma PatchedWordTwice(w: bv32, tls: TlsHigh)
    ensures PatchedWord(PatchedWord(w, tls), tls) == PatchedWord(w, tls)
    ensures !Call(PatchedWord(w, tls))
  {
  }

  // ── A code buffer and its cache of tags ────────────────────────────────

  /** Tags of BRK words by host address. */
  type Cache = map<nat, bv32>

  function Patched(ws: seq<bv32>, tls: TlsHigh): seq<bv32> {
    seq(|ws|, i requires 0 <= i < |ws| => PatchedWord(ws[i], tls))
  }

  /** The cache after the first n words of a buffer at a base address. */
  function CacheAfter(cache: Cache, ws: seq<bv32>, base: nat, n: nat): Cache
    requires n <= |ws|
  {
    if n == 0 then cache
    else
      var before := CacheAfter(cache, ws, base, n - 1);
      if Call(ws[n - 1]) then before[base + 4 * (n - 1) := TagOf(SvcNumber(ws[n - 1]))] else before
  }

  /** Tag and number of each call among the first n words, in order. */
  function CallMap(ws: seq<bv32>, n: nat): seq<(bv32, bv32)>
    requires n <= |ws|
  {
    if n == 0 then []
    else CallMap(ws, n - 1) + (if Call(ws[n - 1]) then [(TagOf(SvcNumber(ws[n - 1])), SvcNumber(ws[n - 1]))] else [])
  }

  datatype Trap = Skipped | ToDebugger | Dispatched(svc: bv32)

  /** What a trap at an address does: the cache alone decides, not the word in memory. */
  function TrapAt(cache: Cache, pc: nat): Trap {
    if pc !in cache then Skipped
    else if IsDebugTag(cache[pc]) then ToDebugger
    else Dispatched(CallOf(cache[pc]))
  }

  /** A cache that holds only tags of patched calls. */
  ghost predicate CallTags(cache: Cache) {
    forall a :: a in cache ==> IsCallTag(cache[a])
  }

  lemma {:induction false} CacheLookup(cache: Cache, ws: seq<bv32>, base: nat, n: nat, i: nat)
    requires i < n <= |ws|
    ensures var c := CacheAfter(cache, ws, base, n); var a := base + 4 * i;
            && (Call(ws[i]) ==> a in c && c[a] == TagOf(SvcNumber(ws[i])))
            && (!Call(ws[i]) ==> (a in c <==> a in cache) && (a in c ==> c[a] == cache[a]))
    decreases n
  {
    hide Call, SvcNumber, TagOf;
    if i < n - 1 {
      CacheLookup(cache, ws, base, n - 1, i);
    } else {
      CacheUntouched(cache, ws, base, n - 1, base + 4 * i);
    }
  }

  /** Addresses at or after the first n words keep their entries. */
  lemma {:induction false} CacheUntouched(cache: Cache, ws: seq<bv32>, base: nat, n: nat, a: nat)
    requires n <= |ws| && a >= base + 4 * n
    ensures var c := CacheAfter(cache, ws, base, n); (a in c <==> a in cache) && (a in c ==> c[a] == cache[a])
  {
    hide Call, SvcNumber, TagOf;
    if n > 0 {
      CacheUntouched(cache, ws, base, n - 1, a);
    }
  }

  lemma TagInRange(w: bv32)
    requires Call(w)
    ensures IsCallTag(TagOf(SvcNumber(w)))
  {
  }

  lemma {:induction false} CacheTags(cache: Cache, ws: seq<bv32>, base: nat, n: nat)
    requires n <= |ws| && CallTags(cache)
    ensures CallTags(CacheAfter(cache, ws, base, n))
  {
    hide Call, SvcNumber, TagOf;
    if n > 0 {
      CacheTags(cache, ws, base, n - 1);
      if Call(ws[n - 1]) {
        TagInRange(ws[n - 1]);
      }
    }
  }

  /**
   Patch and trap are inverse: after a buffer is patched into an empty cache, a
   trap at a word that was call n dispatches n, and a trap at any other word of
   the buffer is skipped.
   */
  lemma TrapInverts(ws: seq<bv32>, base: nat, i: nat)
    requires i < |ws|
    ensures TrapAt(CacheAfter(map[], ws, base, |ws|), base + 4 * i) ==
            if Call(ws[i]) then Dispatched(SvcNumber(ws[i])) else Skipped
  {
    CacheLookup(map[], ws, base, |ws|, i);
    if Call(ws[i]) {
      TagDecodes(ws[i]);
    }
  }

  lemma TagDecodes(w: bv32)
    requires Call(w)
    ensures !IsDebugTag(TagOf(SvcNumber(w))) && CallOf(TagOf(SvcNumber(w))) == SvcNumber(w)
  {
  }

  lemma NotDebugTag(tag: bv32)
    requires IsCallTag(tag)
    ensures !IsDebugTag(tag)
  {
  }

  /** However many buffers were patched, no trap is ever taken for a debugger breakpoint. */
  lemma NeverToDebugger(cache: Cache, pc: nat)
    requires CallTags(cache)
    ensures !TrapAt(cache, pc).ToDebugger?
  {
    if pc in cache {
      NotDebugTag(cache[pc]);
    }
  }

  lemma {:induction false} NoCallsLeft(ws: seq<bv32>, tls: TlsHigh, cache: Cache, base: nat, n: nat)
    requires n <= |ws|
    ensures CacheAfter(cache, Patched(ws, tls), base, n) == cache && CallMap(Patched(ws, tls), n) == []
  {
    hide Call, SvcNumber, PatchedWord;
    if n > 0 {
      NoCallsLeft(ws, tls, cache, base, n - 1);
      PatchedWordTwice(ws[n - 1], tls);
    }
  }

  /**
   Patching a patched buffer changes neither the code nor the cache. The map of
   calls does change: the second patch returns none.
   */
  lemma PatchTwice(ws: seq<bv32>, tls: TlsHigh, cache: Cache, base: nat)
    ensures Patched(Patched(ws, tls), tls) == Patched(ws, tls)
    ensures var once := CacheAfter(cache, ws, base, |ws|); CacheAfter(once, Patched(ws, tls), base, |ws|) == once
    ensures CallMap(Patched(ws, tls), |ws|) == []
  {
    hide Call, SvcNumber, PatchedWord;
    NoCallsLeft(ws, tls, CacheAfter(cache, ws, base, |ws|), base, |ws|);
    forall i | 0 <= i < |ws| ensures Patched(Patched(ws, tls), tls)[i] == Patched(ws, tls)[i] {
      PatchedWordTwice(ws[i], tls);
    }
  }

  // ── The host ───────────────────────────────────────────────────────────

  /** The process-wide state: the fixed thread-local storage and the cache of tags. */
  class Host {
    var fixedTls: TlsHigh
    var brkCache: Cache

    constructor ()
      ensures fixedTls == 0 && brkCache == map[]
    {
      fixedTls, brkCache := 0, map[];
    }

    /** Maps the first of 15 candidate addresses that can be mapped, once. */
    method EnsureFixedTls(mappable: bv32 -> bool) returns (ok: bool)
      modifies this`fixedTls
      ensures ok <==> fixedTls != 0
      ensures old(fixedTls) != 0 ==> fixedTls == old(fixedTls)
      ensures old(fixedTls) == 0 && ok ==> mappable(fixedTls) && forall k: bv32 :: 0 < k < fixedTls ==> !mappable(k)
      ensures old(fixedTls) == 0 && !ok ==> forall k: bv32 :: 0 < k <= 15 ==> !mappable(k)
    {
      if fixedTls != 0 {
        return true;
      }
      var candidate: bv32 := 1;
      while candidate <= 15
        invariant fixedTls == 0 && 1 <= candidate <= 16
        invariant forall k: bv32 :: 0 < k < candidate ==> !mappable(k)
        decreases 16 - candidate
      {
        if mappable(candidate) {
          fixedTls := candidate;
          return true;
        }
        candidate := candidate + 1;
      }
      ok := false;
    }

    /** Records the tag of a call's BRK word. */
    method BrkCacheAdd(address: nat, svc: bv32)
      modifies this`brkCache
      ensures brkCache == old(brkCache)[address := TagOf(svc)]
    {
      brkCache := brkCache[address := TagOf(svc)];
    }

    /**
     Patches a code buffer in place; size is in bytes. The calls found are
     recorded in the cache and returned in order.
     */
    method PatchSVCs(code: array<bv32>, size: nat, base: nat, mappable: bv32 -> bool)
      returns (ok: bool, calls: seq<(bv32, bv32)>)
      requires code.Length == size / 4
      modifies this, code
      ensures ok <==> 4 <= size && size % 4 == 0
      ensures !ok ==> code[..] == old(code[..]) && brkCache == old(brkCache) && fixedTls == old(fixedTls)
      ensures ok ==> code[..] == Patched(old(code[..]), fixedTls)
      ensures ok ==> brkCache == CacheAfter(old(brkCache), old(code[..]), base, code.Length)
      ensures ok ==> calls == CallMap(old(code[..]), code.Length)
      ensures old(CallTags(brkCache)) ==> CallTags(brkCache)
    {
      hide Call, SvcNumber, PatchedWord, CallTags, TagOf;
      calls := [];
      if size < 4 || size % 4 != 0 {
        return false, calls;
      }
      ghost var ws := code[..];
      var hasFixedTls := EnsureFixedTls(mappable);
      var i := 0;
      while i < code.Length
        invariant 0 <= i <= code.Length
        invariant forall k :: 0 <= k < i ==> code[k] == PatchedWord(ws[k], fixedTls)
        invariant forall k :: i <= k < code.Length ==> code[k] == ws[k]
        invariant brkCache == CacheAfter(old(brkCache), ws, base, i) && calls == CallMap(ws, i)
        invariant hasFixedTls <==> fixedTls != 0
      {
        var inst := code[i];
        var call := PatchCall(code, i, base, hasFixedTls);
        if call {
          calls := calls + [(TagOf(SvcNumber(inst)), SvcNumber(inst))];
        }
        i := i + 1;
      }
      if old(CallTags(brkCache)) {
        CacheTags(old(brkCache), ws, base, |ws|);
      }
      ok := true;
    }

    /** One word: a call becomes a BRK and enters the cache, a read of the thread pointer becomes a load. */
    method PatchCall(code: array<bv32>, i: nat, base: nat, hasFixedTls: bool) returns (call: bool)
      requires i < code.Length && (hasFixedTls <==> fixedTls != 0)
      modifies this`brkCache, code
      ensures call <==> Call(old(code[i]))
      ensures code[i] == PatchedWord(old(code[i]), fixedTls)
      ensures forall k :: 0 <= k < code.Length && k != i ==> code[k] == old(code[k])
      ensures brkCache == if call then old(brkCache)[base + 4 * i := TagOf(SvcNumber(old(code[i])))] else old(brkCache)
    {
      var inst := code[i];
      NoCallNoRead(inst);
      hide IsSvc, Known, SvcNumber, IsThreadPointerRead, FixedTlsLoad, BrkWord, TagOf, Destination;
      call := false;
      if IsSvc(inst) {
        var svc := SvcNumber(inst);
        if !Known(svc) {
          return false;
        }
        code[i] := BrkWord(svc);
        BrkCacheAdd(base + 4 * i, svc);
        call := true;
      }
      if hasFixedTls && IsThreadPointerRead(inst) {
        code[i] := FixedTlsLoad(fixedTls, Destination(inst));
      }
    }

    /** The trap handler: dispatches a cached call, or hands a debug tag to the debugger. */
    method Trap(pc: nat) returns (trap: Trap)
      ensures trap == TrapAt(brkCache, pc)
      ensures CallTags(brkCache) ==> !trap.ToDebugger?
    {
      hide IsDebugTag, CallOf, IsCallTag;
      trap := Skipped;
      if pc in brkCache {
        var tag := brkCache[pc];
        if IsDebugTag(tag) {
          trap := ToDebugger;
        } else {
          trap := Dispatched(CallOf(tag));
        }
      }
      if CallTags(brkCache) {
        NeverToDebugger(brkCache, pc);
      }
    }
  }

  /** A system-call word is not a read of the thread pointer. */
  lemma NoCallNoRead(w: bv32)
    ensures !(IsSvc(w) && IsThreadPointerRead(w))
  {
  }
}
