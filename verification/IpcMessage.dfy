/**
 HIPC and CMIF messages: how requests are taken apart, how responses are laid
 out, and what reading a response gives back.
 */
module IpcMessage {
  import opened Common

  // ── Bytes and words ────────────────────────────────────────────────────

  /** Bytes past the end of a buffer read as zero. */
  function ByteAt(s: seq<Byte>, i: nat): Byte { if i < |s| then s[i] else 0 }

  function Slice(s: seq<Byte>, from: nat, to: nat): (r: seq<Byte>)
    requires from <= to
    ensures |r| == to - from
  {
    seq<Byte>(to - from, i requires 0 <= i => ByteAt(s, from + i))
  }

  function Word(a: Byte, b: Byte, c: Byte, d: Byte): u32 {
    a as int + 0x100 * b + 0x1_0000 * c + 0x100_0000 * d
  }

  /** The little-endian word at an offset. */
  function U32At(s: seq<Byte>, i: nat): u32 {
    Word(ByteAt(s, i), ByteAt(s, i + 1), ByteAt(s, i + 2), ByteAt(s, i + 3))
  }

  function Bytes4(w: u32): (r: seq<Byte>)
    ensures |r| == 4
  {
    [w % 0x100, (w / 0x100) % 0x100, (w / 0x1_0000) % 0x100, w / 0x100_0000]
  }

  lemma WordOfBytes(w: u32)
    ensures Word(Bytes4(w)[0], Bytes4(w)[1], Bytes4(w)[2], Bytes4(w)[3]) == w
  {
    var a := w / 0x100;
    var b := a / 0x100;
    var c := b / 0x100;
    assert b == w / 0x1_0000 && c == w / 0x100_0000;
    assert w == 0x100 * a + w % 0x100 && a == 0x100 * b + a % 0x100 && b == 0x100 * c + b % 0x100;
  }

  /** A word written into a buffer reads back, whatever is around it. */
  lemma WordReads(before: seq<Byte>, w: u32, after: seq<Byte>)
    ensures U32At(before + Bytes4(w) + after, |before|) == w
  {
    hide Word, Bytes4;
    var s, n := before + Bytes4(w) + after, |before|;
    assert s[n] == Bytes4(w)[0] && s[n + 1] == Bytes4(w)[1] && s[n + 2] == Bytes4(w)[2] && s[n + 3] == Bytes4(w)[3];
    WordOfBytes(w);
  }

  // ── HIPC headers ───────────────────────────────────────────────────────

  const SFCI: u32 := 0x4943_4653
  const SFCO: u32 := 0x4F43_4653

  datatype Hipc = Hipc(
    type_: nat, statics: nat, sends: nat, recvs: nat, exchanges: nat, dataWords: nat, recvMode: nat, recvOffset: nat, special: bool)

  const ZERO_HEADER := Hipc(0, 0, 0, 0, 0, 0, 0, 0, false)

  /** The bit fields of the two header words. */
  function HeaderFields(w: u32, v: u32): Hipc {
    Hipc(w % 0x1_0000, (w / 0x1_0000) % 0x10, (w / 0x10_0000) % 0x10, (w / 0x100_0000) % 0x10, w / 0x1000_0000,
         v % 0x400, (v / 0x400) % 0x10, (v / 0x10_0000) % 0x800, v / 0x8000_0000 == 1)
  }

  function HeaderOf(s: seq<Byte>): Hipc {
    HeaderFields(U32At(s, 0), U32At(s, 4))
  }

  /** A special header's process id flag and its numbers of copied and moved handles. */
  function SendsPid(sh: u32): bool { sh % 2 == 1 }
  function CopyHandles(sh: u32): nat { (sh / 2) % 0x10 }
  function MoveHandles(sh: u32): nat { (sh / 0x20) % 0x10 }

  /** The size of everything a special header announces, itself included. */
  function SpecialSize(sh: u32): nat {
    4 + (if SendsPid(sh) then 8 else 0) + 4 * CopyHandles(sh) + 4 * MoveHandles(sh)
  }

  /** Where the data words of a message of the given size begin; 0 when they do not. */
  function DataWordsOffset(s: seq<Byte>, size: nat): nat {
    if size < 8 then 0
    else
      var h := HeaderOf(s);
      if h.special && 12 > size then 0
      else
        var off := 8 + (if h.special then SpecialSize(U32At(s, 8)) else 0)
          + 8 * h.statics + 16 * (h.sends + h.recvs + h.exchanges);
        if off < size then off else 0
  }

  function Align16(n: nat): nat { (n + 15) / 16 * 16 }

  // ── Requests ───────────────────────────────────────────────────────────

  /** A request as the manager sees it: its type, command, input, token and, in a domain, the object addressed. */
  datatype Request = Request(type_: nat, cmd: u32, input: seq<Byte>, token: u32, object_: u32, recycled: bool)

  /** A response left in the buffer gives itself away by its magic number. */
  predicate Recycled(s: seq<Byte>, size: nat) {
    var check := Align16(DataWordsOffset(s, size));
    HeaderOf(s).dataWords > 0 && check + 4 <= size && U32At(s, check) == SFCO
  }

  function ParseWith(s: seq<Byte>, h: Hipc, off: nat, isDomain: bool, recycled: bool): Request {
    var cmif := Align16(off);
    var header := cmif + if isDomain then 16 else 0;
    var object_ := if isDomain && h.dataWords > 0 then U32At(s, cmif + 4) else 0;
    if h.dataWords > 0 && U32At(s, header) == SFCI then
      var end, dataEnd := cmif + 16, off + 4 * h.dataWords;
      Request(h.type_, U32At(s, header + 8), if end < dataEnd then Slice(s, end, dataEnd) else [], U32At(s, header + 12), object_, recycled)
    else
      Request(h.type_, if h.dataWords > 0 && off > 0 then U32At(s, off) else 0, [], 0, object_, recycled)
  }

  function ParseRequest(s: seq<Byte>, size: nat, isDomain: bool): Request {
    if Recycled(s, size) then ParseWith(s, ZERO_HEADER, 8, isDomain, true)
    else ParseWith(s, HeaderOf(s), DataWordsOffset(s, size), isDomain, false)
  }

  // ── Responses ──────────────────────────────────────────────────────────

  /** The place kept for a handle behind the header. */
  datatype Slot = NoSlot | CopySlot | MoveSlot

  function SlotSize(slot: Slot): nat { if slot.NoSlot? then 0 else 8 }

  /** One handle, copied or moved. */
  function SpecialWord(slot: Slot): u32 {
    if slot.CopySlot? then 0x2 else if slot.MoveSlot? then 0x20 else 0
  }

  /** A header of type 0; the number of data words is cut to ten bits. */
  function HeaderWord(dataWords: nat, special: bool): u32 {
    dataWords % 0x400 + if special then 0x8000_0000 else 0
  }

  function OutHeader(token: u32): (r: seq<Byte>)
    ensures |r| == 16
  {
    Bytes4(SFCO) + Bytes4(0) + Bytes4(0) + Bytes4(token)
  }

  function WordList(ws: seq<u32>): (r: seq<Byte>)
    ensures |r| == 4 * |ws|
  {
    if ws == [] then [] else WordList(ws[..|ws| - 1]) + Bytes4(ws[|ws| - 1])
  }

  function DomainHeader(objects: seq<u32>): (r: seq<Byte>)
    requires |objects| < 0x1_0000_0000
    ensures |r| == 16
  {
    Bytes4(|objects|) + Bytes4(0) + Bytes4(0) + Bytes4(0)
  }

  /** Objects handed out by a domain request; none for a plain session. */
  type Objects = o: Option<seq<u32>> | o.None? || |o.value| <= 8 witness None

  /** What follows the header and the slot: optional domain header, CMIF header, data, optional object ids. */
  function Payload(token: u32, data: seq<Byte>, objects: Objects): (r: seq<Byte>)
    ensures |r| == 16 + |data| + if objects.Some? then 16 + 4 * |objects.value| else 0
  {
    (if objects.Some? then DomainHeader(objects.value) else []) + OutHeader(token) + data
    + (if objects.Some? then WordList(objects.value) else [])
  }

  /** The words from the end of the slot to the end of the response. */
  function DataWords(slot: Slot, payload: nat): nat {
    (8 - SlotSize(slot) + payload + 3) / 4
  }

  /** The eight bytes behind the header: the handle's slot, or bytes of no meaning. */
  function Front(slot: Slot, handle: u32, pad: seq<Byte>): (r: seq<Byte>)
    requires |pad| == 8
    ensures |r| == 8
  {
    if slot.NoSlot? then pad else Bytes4(SpecialWord(slot)) + Bytes4(handle)
  }

  function Response(slot: Slot, handle: u32, pad: seq<Byte>, token: u32, data: seq<Byte>, objects: Objects): (r: seq<Byte>)
    requires |pad| == 8
    ensures |r| == 16 + |Payload(token, data, objects)|
  {
    var payload := Payload(token, data, objects);
    Bytes4(0) + Bytes4(HeaderWord(DataWords(slot, |payload|), !slot.NoSlot?)) + Front(slot, handle, pad) + payload
  }

  // ── Reading a response ─────────────────────────────────────────────────

  datatype Reply = Reply(token: u32, result: u32, copies: nat, moves: nat, handle: u32, data: seq<Byte>, objects: nat)

  /** What a client reads, following the header to the data words and the alignment to the CMIF header. */
  function ReadResponse(s: seq<Byte>, isDomain: bool): Option<Reply> {
    var h := HeaderOf(s);
    var off := DataWordsOffset(s, |s|);
    var base := Align16(off);
    var cmif := base + if isDomain then 16 else 0;
    var objects := if isDomain then U32At(s, base) else 0;
    if off == 0 || cmif + 16 + 4 * objects > |s| || U32At(s, cmif) != SFCO then None
    else
      Some(Reply(U32At(s, cmif + 12), U32At(s, cmif + 8),
                 if h.special then CopyHandles(U32At(s, 8)) else 0, if h.special then MoveHandles(U32At(s, 8)) else 0,
                 if h.special then U32At(s, 12) else 0, s[cmif + 16..|s| - 4 * objects], objects))
  }

  lemma HeaderRead(n: nat, special: bool)
    ensures HeaderFields(0, HeaderWord(n, special)) == Hipc(0, 0, 0, 0, 0, n % 0x400, 0, 0, special)
  {
    var m := n % 0x400;
    assert m % 0x400 == m && m / 0x400 == 0 && m / 0x10_0000 == 0;
    if special {
      var v := m + 0x8000_0000;
      assert v == 0x400 * 0x20_0000 + m;
      assert v % 0x400 == m && v / 0x400 == 0x20_0000;
      assert v / 0x10_0000 == 0x800;
    }
  }

  /** The words of a response's front, wherever they stand. */
  lemma FrontReads(slot: Slot, handle: u32, pad: seq<Byte>, token: u32, data: seq<Byte>, objects: Objects)
    requires |pad| == 8
    ensures var s := Response(slot, handle, pad, token, data, objects);
            && HeaderOf(s) == Hipc(0, 0, 0, 0, 0, DataWords(slot, |Payload(token, data, objects)|) % 0x400, 0, 0, !slot.NoSlot?)
            && (!slot.NoSlot? ==> U32At(s, 8) == SpecialWord(slot) && U32At(s, 12) == handle)
  {
    hide Bytes4, U32At, HeaderFields, HeaderWord, Payload, DataWords, SpecialWord;
    var payload := Payload(token, data, objects);
    var n := DataWords(slot, |payload|);
    var w := HeaderWord(n, !slot.NoSlot?);
    var s := Response(slot, handle, pad, token, data, objects);
    var front := Front(slot, handle, pad);
    WordReads([], 0, Bytes4(w) + front + payload);
    assert s == [] + Bytes4(0) + (Bytes4(w) + front + payload);
    WordReads(Bytes4(0), w, front + payload);
    assert s == Bytes4(0) + Bytes4(w) + (front + payload);
    HeaderRead(n, !slot.NoSlot?);
    if !slot.NoSlot? {
      var sh := SpecialWord(slot);
      WordReads(Bytes4(0) + Bytes4(w), sh, Bytes4(handle) + payload);
      assert s == Bytes4(0) + Bytes4(w) + Bytes4(sh) + (Bytes4(handle) + payload);
      WordReads(Bytes4(0) + Bytes4(w) + Bytes4(sh), handle, payload);
      assert s == Bytes4(0) + Bytes4(w) + Bytes4(sh) + Bytes4(handle) + payload;
    }
  }

  lemma SlotSpecial(slot: Slot)
    ensures !slot.NoSlot? ==> SpecialSize(SpecialWord(slot)) == 8
    ensures CopyHandles(SpecialWord(slot)) == (if slot.CopySlot? then 1 else 0)
    ensures MoveHandles(SpecialWord(slot)) == (if slot.MoveSlot? then 1 else 0)
  {
  }

  /** The data words of a response begin right behind its slot, and its CMIF part at byte 16. */
  lemma ResponseOffset(slot: Slot, handle: u32, pad: seq<Byte>, token: u32, data: seq<Byte>, objects: Objects)
    requires |pad| == 8
    ensures var s := Response(slot, handle, pad, token, data, objects);
            DataWordsOffset(s, |s|) == 8 + SlotSize(slot) && Align16(DataWordsOffset(s, |s|)) == 16
  {
    hide Response, HeaderOf, U32At, SpecialSize, SpecialWord, CopyHandles, MoveHandles, Payload, DataWords;
    FrontReads(slot, handle, pad, token, data, objects);
    SlotSpecial(slot);
  }

  /** Three zero-or-not words and a token, wherever they stand. */
  lemma FourWordsRead(front: seq<Byte>, w: u32, token: u32, tail: seq<Byte>)
    ensures var s := front + (Bytes4(w) + Bytes4(0) + Bytes4(0) + Bytes4(token)) + tail; var at := |front|;
            U32At(s, at) == w && U32At(s, at + 8) == 0 && U32At(s, at + 12) == token
  {
    hide Bytes4, U32At;
    var a, b, c, d := Bytes4(w), Bytes4(0), Bytes4(0), Bytes4(token);
    var s := front + (a + b + c + d) + tail;
    WordReads(front, w, b + c + d + tail);
    assert s == front + a + (b + c + d + tail);
    WordReads(front + a + b, 0, d + tail);
    assert s == front + a + b + c + (d + tail);
    WordReads(front + a + b + c, token, tail);
    assert s == front + a + b + c + d + tail;
  }

  lemma Parts<T>(head: seq<T>, domain: seq<T>, cmif: seq<T>, data: seq<T>, ids: seq<T>)
    ensures head + (domain + cmif + data + ids) == head + domain + cmif + (data + ids)
    ensures head + (domain + cmif + data + ids) == head + domain + (cmif + data + ids)
    ensures var s := head + (domain + cmif + data + ids); var at := |head| + |domain| + |cmif|;
            s[at..at + |data|] == data
  {
    var s := head + (domain + cmif + data + ids);
    assert s == head + domain + cmif + data + ids;
  }

  /** The CMIF header of a response, behind the domain header if there is one. */
  lemma CmifReads(slot: Slot, handle: u32, pad: seq<Byte>, token: u32, data: seq<Byte>, objects: Objects)
    requires |pad| == 8
    ensures var s := Response(slot, handle, pad, token, data, objects); var at := if objects.Some? then 32 else 16;
            && U32At(s, at) == SFCO && U32At(s, at + 8) == 0 && U32At(s, at + 12) == token
            && at + 16 + |data| <= |s| && s[at + 16..at + 16 + |data|] == data
            && (objects.Some? ==> U32At(s, 16) == |objects.value|)
  {
    hide Bytes4, U32At, WordList, HeaderWord, DataWords;
    var domain := if objects.Some? then DomainHeader(objects.value) else [];
    var ids := if objects.Some? then WordList(objects.value) else [];
    var head := Bytes4(0) + Bytes4(HeaderWord(DataWords(slot, |Payload(token, data, objects)|), !slot.NoSlot?)) + Front(slot, handle, pad);
    Parts(head, domain, OutHeader(token), data, ids);
    FourWordsRead(head + domain, SFCO, token, data + ids);
    if objects.Some? {
      FourWordsRead(head, |objects.value|, 0, OutHeader(token) + data + ids);
    }
  }

  lemma {:induction false} WordListReads(before: seq<Byte>, ws: seq<u32>, k: nat)
    requires k < |ws|
    ensures U32At(before + WordList(ws), |before| + 4 * k) == ws[k]
  {
    hide U32At, Bytes4;
    var init := ws[..|ws| - 1];
    var last := ws[|ws| - 1];
    assert before + WordList(ws) == before + WordList(init) + Bytes4(last);
    if k == |ws| - 1 {
      WordReads(before + WordList(init), last, []);
      assert before + WordList(init) + Bytes4(last) + [] == before + WordList(init) + Bytes4(last);
    } else {
      WordListReads(before, init, k);
      SameWordAt(before + WordList(init), Bytes4(last), |before| + 4 * k);
    }
  }

  lemma SameWordAt(a: seq<Byte>, b: seq<Byte>, i: nat)
    requires i + 4 <= |a|
    ensures U32At(a + b, i) == U32At(a, i)
  {
  }

  /** The object ids stand behind the data. */
  lemma ObjectsRead(slot: Slot, handle: u32, pad: seq<Byte>, token: u32, data: seq<Byte>, objects: Objects, k: nat)
    requires |pad| == 8 && objects.Some? && k < |objects.value|
    ensures U32At(Response(slot, handle, pad, token, data, objects), 48 + |data| + 4 * k) == objects.value[k]
  {
    hide U32At, Bytes4, WordList, HeaderWord, DataWords;
    var s := Response(slot, handle, pad, token, data, objects);
    var ids := WordList(objects.value);
    var before := s[..48 + |data|];
    assert s == before + ids;
    WordListReads(before, objects.value, k);
  }

  /**
   Reading a response gives back the token, the data and the handle, and for a
   domain the number of objects; no size, content or padding gets in the way.
   */
  lemma ResponseReads(slot: Slot, handle: u32, pad: seq<Byte>, token: u32, data: seq<Byte>, objects: Objects)
    requires |pad| == 8
    ensures ReadResponse(Response(slot, handle, pad, token, data, objects), objects.Some?) ==
            Some(Reply(token, 0, if slot.CopySlot? then 1 else 0, if slot.MoveSlot? then 1 else 0,
                       if slot.NoSlot? then 0 else handle, data, if objects.Some? then |objects.value| else 0))
  {
    hide Response, U32At, HeaderOf, DataWordsOffset, Align16, SpecialWord, CopyHandles, MoveHandles, DataWords;
    FrontReads(slot, handle, pad, token, data, objects);
    ResponseOffset(slot, handle, pad, token, data, objects);
    CmifReads(slot, handle, pad, token, data, objects);
    SlotSpecial(slot);
    NoHandles();
  }

  lemma NoHandles()
    ensures CopyHandles(0) == 0 && MoveHandles(0) == 0
  {
  }

  /**
   A response of a plain session left in the buffer and taken for a request is
   command 0 with empty input, whatever it holds. It is recognised as a response
   exactly when its number of data words does not vanish in its ten bits.
   */
  lemma ResponseAsRequest(slot: Slot, handle: u32, pad: seq<Byte>, token: u32, data: seq<Byte>)
    requires |pad| == 8
    ensures var s := Response(slot, handle, pad, token, data, None);
            ParseRequest(s, |s|, false) == Request(0, 0, [], 0, 0, DataWords(slot, 16 + |data|) % 0x400 != 0)
  {
    hide Response, U32At, HeaderOf, DataWordsOffset, Align16, SpecialWord, DataWords, Slice;
    FrontReads(slot, handle, pad, token, data, None);
    ResponseOffset(slot, handle, pad, token, data, None);
    CmifReads(slot, handle, pad, token, data, None);
  }

  /** A response of a domain session is never recognised: the magic number is behind the domain header. */
  lemma DomainResponseNotRecycled(slot: Slot, handle: u32, pad: seq<Byte>, token: u32, data: seq<Byte>, objects: Objects)
    requires |pad| == 8 && objects.Some?
    ensures var s := Response(slot, handle, pad, token, data, objects); !Recycled(s, |s|)
  {
    hide Response, U32At, HeaderOf, DataWordsOffset, Align16;
    ResponseOffset(slot, handle, pad, token, data, objects);
    CmifReads(slot, handle, pad, token, data, objects);
  }

  // ── Building a response in place ───────────────────────────────────────

  /** A buffer's contents after bytes are copied over a stretch of it. */
  function Over<T>(s: seq<T>, at: nat, bytes: seq<T>): (r: seq<T>)
    requires at + |bytes| <= |s|
    ensures |r| == |s|
  {
    s[..at] + bytes + s[at + |bytes|..]
  }

  /** A stretch that is written, and one that is not. */
  lemma OverSlice<T>(s: seq<T>, at: nat, bytes: seq<T>, lo: nat, hi: nat)
    requires at + |bytes| <= |s| && lo <= hi <= |s|
    ensures Over(s, at, bytes)[at..at + |bytes|] == bytes
    ensures hi <= at || at + |bytes| <= lo ==> Over(s, at, bytes)[lo..hi] == s[lo..hi]
  {
  }

  /** Copies bytes into a buffer. */
  method Put(a: array<Byte>, at: nat, bytes: seq<Byte>)
    requires at + |bytes| <= a.Length
    modifies a
    ensures a[..] == Over(old(a[..]), at, bytes)
  {
    forall k | 0 <= k < |bytes| {
      a[at + k] := bytes[k];
    }
  }

  lemma BytesOfWord(s: seq<Byte>, i: nat)
    requires i + 4 <= |s|
    ensures Bytes4(U32At(s, i)) == s[i..i + 4]
  {
    var w := U32At(s, i);
    var y: nat := s[i + 2] as int + 0x100 * (s[i + 3] as int);
    var x: nat := s[i + 1] as int + 0x100 * y;
    assert w == s[i] as int + 0x100 * x;
    LowDigit(s[i], x);
    LowDigit(s[i + 1], y);
    LowDigit(s[i + 2], s[i + 3]);
    assert w / 0x100 == x && w / 0x1_0000 == y && w / 0x100_0000 == s[i + 3];
    assert Bytes4(w) == [s[i], s[i + 1], s[i + 2], s[i + 3]] == s[i..i + 4];
  }

  lemma LowDigit(digit: Byte, rest: nat)
    ensures (digit as int + 0x100 * rest) % 0x100 == digit && (digit as int + 0x100 * rest) / 0x100 == rest
  {
  }

  /** Where the CMIF header of a response goes. */
  function CmifAt(objects: Objects): nat { if objects.Some? then 32 else 16 }

  /**
   Lays out the bytes from 16 on: the service's output moves behind the CMIF
   header, which a domain header precedes and object ids follow.
   */
  method BuildPayload(a: array<Byte>, from: nat, n: nat, token: u32, objects: Objects)
    requires 8 <= from <= 16 && 16 + |Payload(token, [], objects)| + n <= a.Length
    modifies a
    ensures var data := old(a[from..from + n]);
            a[16..16 + |Payload(token, data, objects)|] == Payload(token, data, objects)
    ensures a[..16] == old(a[..16])
  {
    hide OutHeader, DomainHeader, WordList, Over;
    var data := a[from..from + n];
    var cmif := CmifAt(objects);
    var ids := if objects.Some? then WordList(objects.value) else [];
    var domain := if objects.Some? then DomainHeader(objects.value) else [];
    ghost var before := a[..];
    Put(a, cmif + 16, data);
    Put(a, 16, domain);
    Put(a, cmif + 16 + n, ids);
    Put(a, cmif, OutHeader(token));
    PartsPlaced(before, domain, OutHeader(token), data, ids);
    ghost var end := cmif + 16 + n + |ids|;
    assert a[16..end] == a[..][16..end] && a[..16] == a[..][..16] && before[..16] == old(a[..16]);
  }

  /** Data, domain header, object ids and CMIF header written one after the other stand side by side. */
  lemma PartsPlaced(s: seq<Byte>, domain: seq<Byte>, cmif: seq<Byte>, data: seq<Byte>, ids: seq<Byte>)
    requires |cmif| == 16 && 16 + |domain| + 16 + |data| + |ids| <= |s|
    ensures var c := 16 + |domain|; var d := c + 16; var e := d + |data|;
            var t := Over(Over(Over(Over(s, d, data), 16, domain), e, ids), c, cmif);
            t[16..e + |ids|] == domain + cmif + data + ids && t[..16] == s[..16]
  {
    hide Over;
    var c := 16 + |domain|;
    var d := c + 16;
    var e := d + |data|;
    var p := Over(s, d, data);
    var q := Over(p, 16, domain);
    var r := Over(q, e, ids);
    var t := Over(r, c, cmif);
    OverSlice(s, d, data, 0, 16);
    OverSlice(p, 16, domain, 0, 16);
    OverSlice(p, 16, domain, d, e);
    OverSlice(q, e, ids, 0, 16);
    OverSlice(q, e, ids, 16, c);
    OverSlice(q, e, ids, d, e);
    OverSlice(r, c, cmif, 0, 16);
    OverSlice(r, c, cmif, 16, c);
    OverSlice(r, c, cmif, d, e);
    OverSlice(r, c, cmif, e, e + |ids|);
    assert t[..16] == t[0..16] && s[..16] == s[0..16];
    Concatenated(t, 16, domain, cmif, data, ids);
  }

  lemma Concatenated<T>(s: seq<T>, at: nat, w: seq<T>, x: seq<T>, y: seq<T>, z: seq<T>)
    requires at + |w| + |x| + |y| + |z| <= |s|
    requires s[at..at + |w|] == w && s[at + |w|..at + |w| + |x|] == x
    requires s[at + |w| + |x|..at + |w| + |x| + |y|] == y
    requires s[at + |w| + |x| + |y|..at + |w| + |x| + |y| + |z|] == z
    ensures s[at..at + |w| + |x| + |y| + |z|] == w + x + y + z
  {
  }

  /** Completes a response around the output a service left behind the slot. */
  method BuildResponse(a: array<Byte>, slot: Slot, n: nat, token: u32, objects: Objects) returns (size: nat)
    requires 16 + |Payload(token, [], objects)| + n <= a.Length
    modifies a
    ensures var data := old(a[8 + SlotSize(slot)..8 + SlotSize(slot) + n]);
            var response := Response(slot, U32At(old(a[..]), 12), old(a[8..16]), token, data, objects);
            size == |response| && size <= a.Length && a[..size] == response
  {
    hide Payload, Bytes4, HeaderWord, SpecialWord, U32At, Over, Front;
    ghost var before := a[..];
    var from := 8 + SlotSize(slot);
    ghost var data := a[from..from + n];
    ghost var payload := Payload(token, data, objects);
    PayloadSize(token, data, objects);
    BuildPayload(a, from, n, token, objects);
    size := 32 + n + if objects.Some? then 16 + 4 * |objects.value| else 0;
    ghost var middle := a[..];
    assert middle[16..size] == payload && middle[..16] == before[..16];
    if !slot.NoSlot? {
      Put(a, 8, Bytes4(SpecialWord(slot)));
    }
    var header := Bytes4(0) + Bytes4(HeaderWord(DataWords(slot, size - 16), !slot.NoSlot?));
    Put(a, 0, header);
    HeadPlaced(middle, before, slot, header, payload, size);
    assert a[..size] == a[..][..size];
  }

  /** The special header, if any, and the header complete the front of a response. */
  lemma HeadPlaced(s: seq<Byte>, before: seq<Byte>, slot: Slot, header: seq<Byte>, payload: seq<Byte>, size: nat)
    requires |header| == 8 && 16 <= size <= |s| && |s| == |before| && s[..16] == before[..16] && s[16..size] == payload
    ensures var t := Over(if slot.NoSlot? then s else Over(s, 8, Bytes4(SpecialWord(slot))), 0, header);
            t[..size] == header + Front(slot, U32At(before, 12), before[8..16]) + payload
  {
    hide Bytes4, SpecialWord, U32At, Over, Front;
    var m := if slot.NoSlot? then s else Over(s, 8, Bytes4(SpecialWord(slot)));
    var t := Over(m, 0, header);
    if !slot.NoSlot? {
      OverSlice(s, 8, Bytes4(SpecialWord(slot)), 12, 16);
      OverSlice(s, 8, Bytes4(SpecialWord(slot)), 16, size);
    }
    OverSlice(m, 0, header, 8, 12);
    OverSlice(m, 0, header, 12, 16);
    OverSlice(m, 0, header, 16, size);
    assert s[8..12] == s[..16][8..12] == before[8..12] && s[12..16] == s[..16][12..16] == before[12..16];
    BytesOfWord(before, 12);
    FrontPlaced(t, slot, before[8..16], U32At(before, 12), before[12..16], Bytes4(SpecialWord(slot)));
    Concatenated(t, 0, header, Front(slot, U32At(before, 12), before[8..16]), payload, []);
    assert header + Front(slot, U32At(before, 12), before[8..16]) + payload + [] ==
           header + Front(slot, U32At(before, 12), before[8..16]) + payload;
  }

  lemma PayloadSize(token: u32, data: seq<Byte>, objects: Objects)
    ensures |Payload(token, data, objects)| == |Payload(token, [], objects)| + |data|
  {
  }

  lemma FrontPlaced(s: seq<Byte>, slot: Slot, pad: seq<Byte>, handle: u32, handleBytes: seq<Byte>, special: seq<Byte>)
    requires |s| >= 16 && |pad| == 8 && s[12..16] == handleBytes == pad[4..]
    requires handleBytes == Bytes4(handle) && special == Bytes4(SpecialWord(slot))
    requires s[8..12] == if slot.NoSlot? then pad[..4] else special
    ensures s[8..16] == Front(slot, handle, pad)
  {
    hide Bytes4, SpecialWord;
    assert s[8..16] == s[8..12] + s[12..16] && pad == pad[..4] + pad[4..];
  }
}
