/**
 The physical form of a SPIR-V module: instructions, their encoding as 32-bit
 words, and the split of a word stream back into instructions by word counts
 (section 2.3 of the SPIR-V specification).
 */
module Spirv {
  import opened Common

  /** One instruction: its opcode and its operand words, without the leading word. */
  datatype Inst = Inst(op: nat, args: seq<nat>)

  const WORD: nat := 0x1_0000

  /** The leading word has room for the opcode and for the word count. */
  predicate Fits(i: Inst) {
    i.op < WORD && |i.args| + 1 < WORD
  }

  predicate AllFit(code: seq<Inst>) {
    forall i :: 0 <= i < |code| ==> Fits(code[i])
  }

  function Encode(i: Inst): seq<nat> {
    [(|i.args| + 1) * WORD + i.op] + i.args
  }

  function EncodeAll(code: seq<Inst>): seq<nat> {
    if code == [] then [] else EncodeAll(code[..|code| - 1]) + Encode(code[|code| - 1])
  }

  /** Cuts a word stream into instructions; None when a word count is zero or runs past the end. */
  function Split(words: seq<nat>): (r: Option<seq<Inst>>)
    decreases |words|
  {
    if words == [] then Some([])
    else
      var count := words[0] / WORD;
      if count == 0 || count > |words| then None
      else
        match Split(words[count..])
        case None => None
        case Some(rest) => Some([Inst(words[0] % WORD, words[1..count])] + rest)
  }

  lemma {:induction false} EncodeAllAppend(a: seq<Inst>, b: seq<Inst>)
    ensures EncodeAll(a + b) == EncodeAll(a) + EncodeAll(b)
  {
    if b == [] {
      assert a + b == a;
    } else {
      var last := |b| - 1;
      EncodeAllAppend(a, b[..last]);
      var c := a + b;
      assert c[..|c| - 1] == a + b[..last] && c[|c| - 1] == b[last];
      calc {
        EncodeAll(c);
        EncodeAll(a + b[..last]) + Encode(b[last]);
        (EncodeAll(a) + EncodeAll(b[..last])) + Encode(b[last]);
        EncodeAll(a) + (EncodeAll(b[..last]) + Encode(b[last]));
      }
    }
  }

  lemma EncodeAllOne(i: Inst)
    ensures EncodeAll([i]) == Encode(i)
  {
    assert [i][..0] == [];
  }

  lemma LeadingWord(op: nat, count: nat)
    requires op < WORD
    ensures (count * WORD + op) / WORD == count
    ensures (count * WORD + op) % WORD == op
  {
  }

  /** Encoding then splitting gives the instructions back, whatever follows them. */
  lemma {:induction false} SplitEncodeThen(code: seq<Inst>, tail: seq<nat>)
    requires AllFit(code)
    ensures Split(EncodeAll(code) + tail) ==
            (match Split(tail) case None => None case Some(rest) => Some(code + rest))
    decreases |code|
  {
    if code == [] {
      assert EncodeAll(code) + tail == tail;
      if Split(tail).Some? {
        assert code + Split(tail).value == Split(tail).value;
      }
    } else {
      var last := |code| - 1;
      var i := code[last];
      var words := Encode(i) + tail;
      LeadingWord(i.op, |i.args| + 1);
      var count := |i.args| + 1;
      assert words[count..] == tail;
      assert words[1..count] == i.args;
      assert EncodeAll(code) + tail == EncodeAll(code[..last]) + words;
      SplitEncodeThen(code[..last], words);
      if Split(tail).Some? {
        var rest := Split(tail).value;
        assert Split(words) == Some([i] + rest);
        assert code[..last] + ([i] + rest) == code + rest;
      }
    }
  }

  /** The word counts of encoded instructions tile the stream exactly, with nothing left over. */
  lemma SplitEncode(code: seq<Inst>)
    requires AllFit(code)
    ensures Split(EncodeAll(code)) == Some(code)
  {
    SplitEncodeThen(code, []);
    assert EncodeAll(code) + [] == EncodeAll(code);
    assert code + [] == code;
  }

  /** Splitting loses nothing: what was split re-encodes to the same words. */
  lemma {:induction false} EncodeSplit(words: seq<nat>)
    requires Split(words).Some?
    ensures EncodeAll(Split(words).value) == words
    decreases |words|
  {
    if words == [] {
    } else {
      hide EncodeAll, Encode;
      var count := words[0] / WORD;
      var first := Inst(words[0] % WORD, words[1..count]);
      var rest := Split(words[count..]).value;
      EncodeSplit(words[count..]);
      EncodeAllAppend([first], rest);
      EncodeAllOne(first);
      HeadWords(words, count);
    }
  }

  /** The words an instruction was cut from are its encoding. */
  lemma HeadWords(words: seq<nat>, count: nat)
    requires 0 < count <= |words| && count == words[0] / WORD
    ensures Encode(Inst(words[0] % WORD, words[1..count])) + words[count..] == words
  {
    assert words[0] == count * WORD + words[0] % WORD;
  }

  // ── Result ids ─────────────────────────────────────────────────────────

  /** Instructions that define no id. */
  predicate NoResult(op: nat) {
    op == 2 || 5 <= op <= 6 || 14 <= op <= 17 || op == 56 || op == 62 || 71 <= op <= 72
    || 246 <= op <= 247 || 249 <= op <= 253 || op == 255
  }

  /** Instructions whose result id is their first operand: imports, types and labels. */
  predicate ResultFirst(op: nat) {
    op == 11 || 19 <= op <= 23 || op == 25 || 27 <= op <= 30 || 32 <= op <= 33 || op == 248
  }

  /** The id an instruction defines, as a set of at most one id. */
  function Result(i: Inst): set<nat> {
    if NoResult(i.op) then {}
    else if ResultFirst(i.op) then (if |i.args| > 0 then {i.args[0]} else {})
    else if |i.args| > 1 then {i.args[1]} else {}
  }

  /** The ids a code sequence defines. */
  function Defs(code: seq<Inst>): set<nat> {
    if code == [] then {} else Defs(code[..|code| - 1]) + Result(code[|code| - 1])
  }

  /** No id is defined twice. */
  predicate OnceEach(code: seq<Inst>) {
    code == [] || (OnceEach(code[..|code| - 1]) && Defs(code[..|code| - 1]) !! Result(code[|code| - 1]))
  }

  lemma {:induction false} DefsOfElement(code: seq<Inst>, k: nat)
    requires k < |code|
    ensures Result(code[k]) <= Defs(code)
  {
    if k < |code| - 1 {
      DefsOfElement(code[..|code| - 1], k);
    }
  }

  /** Defining each id once, said of any two instructions. */
  lemma {:induction false} OnceEachPairwise(code: seq<Inst>)
    requires OnceEach(code)
    ensures forall j, k :: 0 <= j < k < |code| ==> Result(code[j]) !! Result(code[k])
  {
    if code != [] {
      var init := code[..|code| - 1];
      OnceEachPairwise(init);
      forall j, k | 0 <= j < k < |code| ensures Result(code[j]) !! Result(code[k]) {
        assert init[j] == code[j];
        if k < |init| {
          assert init[k] == code[k];
        } else {
          DefsOfElement(init, j);
        }
      }
    }
  }

  lemma {:induction false} DefsAppend(a: seq<Inst>, b: seq<Inst>)
    ensures Defs(a + b) == Defs(a) + Defs(b)
    ensures OnceEach(a) && OnceEach(b) && Defs(a) !! Defs(b) ==> OnceEach(a + b)
  {
    if b == [] {
      assert a + b == a;
    } else {
      var last := |b| - 1;
      DefsAppend(a, b[..last]);
      assert (a + b)[..|a + b| - 1] == a + b[..last];
    }
  }

  /** All ids of a set lie in the half-open interval from lo to hi. */
  ghost predicate Within(s: set<nat>, lo: nat, hi: nat) {
    forall x :: x in s ==> lo <= x < hi
  }

  /** The code defines each id at most once, and only ids from lo up to hi. */
  ghost predicate Fresh(code: seq<Inst>, lo: nat, hi: nat) {
    OnceEach(code) && Within(Defs(code), lo, hi)
  }

  lemma FreshAppend(a: seq<Inst>, b: seq<Inst>, lo: nat, mid: nat, hi: nat)
    requires lo <= mid <= hi && Fresh(a, lo, mid) && Fresh(b, mid, hi)
    ensures Fresh(a + b, lo, hi)
  {
    DefsAppend(a, b);
  }

  lemma DefsOne(i: Inst)
    ensures Defs([i]) == Result(i) && OnceEach([i])
  {
    assert [i][..0] == [];
  }

  lemma {:induction false} DefsNone(code: seq<Inst>)
    requires forall k :: 0 <= k < |code| ==> Result(code[k]) == {}
    ensures Defs(code) == {} && OnceEach(code)
  {
    if code != [] {
      DefsNone(code[..|code| - 1]);
    }
  }

  /** Code whose instructions define consecutive ids. */
  lemma {:induction false} Consecutive(code: seq<Inst>, lo: nat)
    requires forall k :: 0 <= k < |code| ==> Result(code[k]) == {lo + k}
    ensures Fresh(code, lo, lo + |code|)
  {
    if code != [] {
      Consecutive(code[..|code| - 1], lo);
    }
  }

  // ── Strings ────────────────────────────────────────────────────────────

  function CharByte(s: string, k: nat): nat {
    if k < |s| then s[k] as int % 0x100 else 0
  }

  /** The word holding bytes 4k to 4k+3 of a string and its zero padding, little-endian. */
  function StringWord(s: string, k: nat): nat {
    CharByte(s, 4 * k) + CharByte(s, 4 * k + 1) * 0x100 + CharByte(s, 4 * k + 2) * 0x1_0000 + CharByte(s, 4 * k + 3) * 0x100_0000
  }

  /** A nul-terminated string packed into words. */
  function StringWords(s: string): seq<nat> {
    seq(|s| / 4 + 1, k requires 0 <= k => StringWord(s, k))
  }
}
