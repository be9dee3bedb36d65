/**
 The NvMap object table: handles, the index from handles to entries, and the bump
 allocator that gives mapped objects disjoint regions of the carveout.
 */
module NvMap {
  import opened Arithmetic
  import opened Common

  const PAGE: nat := 0x1000
  const CARVEOUT_BASE: nat := 0xD000_0000
  const CARVEOUT_SIZE: nat := 0x1000_0000
  const ADDRESS_SPACE: nat := 0x1_0000_0000

  // ── Alignment ──────────────────────────────────────────────────────────

  /** Bitwise and of two numbers. */
  function And(x: nat, y: nat): (r: nat)
    ensures r <= x && r <= y
  {
    if x == 0 || y == 0 then 0 else 2 * And(x / 2, y / 2) + (x % 2) * (y % 2)
  }

  /** (v + a - 1) & ~(a - 1), for any alignment a, a power of two or not. */
  function AlignUp(v: nat, a: nat): (r: nat)
    requires a > 0
    ensures v <= r < v + a
  {
    v + a - 1 - And(v + a - 1, a - 1)
  }

  // ── Handles ────────────────────────────────────────────────────────────

  const HANDLE_MARK: nat := 0xCAFE_0000

  /** id | 0xCAFE0000: bits are added where they are not there already. */
  function HandleOf(id: nat): nat {
    id + HANDLE_MARK - And(id, HANDLE_MARK)
  }

  /** The last id that can be handed out before two objects share a handle. */
  const ID_LIMIT: nat := 0x2_0000

  /** Shifting a multiple of a power of two out of a conjunction. */
  lemma {:induction false} AndShift(x: nat, r: nat, y: nat, k: nat)
    requires r < Pow2(k)
    ensures And(Pow2(k) * x + r, Pow2(k) * y) == Pow2(k) * And(x, y)
    decreases k
  {
    hide And, Pow2;
    PowStep(k);
    if k > 0 {
      var half := Pow2(k - 1);
      AndShift(x, r / 2, y, k - 1);
      AndHalves(half * x, r, half * y);
      Twice(half, x);
      Twice(half, y);
      Twice(half, And(x, y));
    }
  }

  lemma Twice(half: nat, x: nat)
    ensures 2 * half * x == 2 * (half * x)
  {
  }

  lemma AndHalves(a: nat, r: nat, b: nat)
    ensures And(2 * a + r, 2 * b) == 2 * And(a + r / 2, b)
  {
    assert (2 * a + r) / 2 == a + r / 2 && (2 * b) / 2 == b && (2 * b) % 2 == 0;
  }

  /** Small ids share no bit with the mark, so their handles are sums. */
  lemma HandleIsSum(id: nat)
    ensures id < ID_LIMIT ==> HandleOf(id) == id + HANDLE_MARK
    ensures id < ID_LIMIT ==> HandleOf(ID_LIMIT + id) == HandleOf(id)
  {
    hide And, Pow2;
    if id < ID_LIMIT {
      Pow17();
      AndShift(0, id, 0x657F, 17);
      AndShift(1, id, 0x657F, 17);
      AndOdd();
      assert And(0, 0x657F) == 0 by { AndNothing(0x657F); }
    }
  }

  lemma Pow17()
    ensures Pow2(17) == ID_LIMIT
  {
    assert Pow2(4) == 16;
    assert Pow2(8) == 16 * Pow2(4);
    assert Pow2(12) == 16 * Pow2(8);
    assert Pow2(16) == 16 * Pow2(12);
  }

  lemma AndOdd()
    ensures And(1, 0x657F) == 1
  {
  }

  lemma AndNothing(y: nat)
    ensures And(0, y) == 0
  {
  }

  /** Up to the limit different ids have different handles. */
  lemma HandlesDistinct(a: nat, b: nat)
    requires 0 < a <= ID_LIMIT && 0 < b <= ID_LIMIT && HandleOf(a) == HandleOf(b)
    ensures a == b
  {
    hide HandleOf;
    HandleIsSum(a);
    HandleIsSum(b);
    HandleIsSum(0);
  }

  /** The limit is exact: the next id shares its handle with the first one. */
  lemma FirstCollision()
    ensures HandleOf(ID_LIMIT + 1) == HandleOf(1)
  {
    HandleIsSum(1);
  }

  lemma AndStep(x: nat, half: nat)
    requires half > 0
    ensures And(x, 2 * half - 1) == 2 * And(x / 2, half - 1) + x % 2
  {
    assert (2 * half - 1) / 2 == half - 1 && (2 * half - 1) % 2 == 1;
  }

  lemma {:induction false} AndIsMod(x: nat, k: nat)
    ensures And(x, Pow2(k) - 1) == x % Pow2(k)
    decreases k
  {
    hide And, Pow2;
    PowStep(k);
    if k == 0 {
      AndZero(x);
    } else {
      AndStep(x, Pow2(k - 1));
      AndIsMod(x / 2, k - 1);
      HalvedMod(x, Pow2(k - 1));
    }
  }

  lemma PowStep(k: nat)
    ensures Pow2(k) == if k == 0 then 1 else 2 * Pow2(k - 1)
  {
  }

  lemma AndZero(x: nat)
    ensures And(x, 0) == 0 && x % 1 == 0
  {
  }

  lemma HalvedMod(x: nat, half: nat)
    requires half > 0
    ensures x % (2 * half) == 2 * ((x / 2) % half) + x % 2
  {
    var q, r := (x / 2) / half, (x / 2) % half;
    assert x / 2 == half * q + r;
    assert x == (2 * half) * q + (2 * r + x % 2);
    ModOf(x, 2 * half, q, 2 * r + x % 2);
  }

  /** For a power of two the result is the least multiple not below v. */
  lemma AlignUpLeast(v: nat, k: nat)
    ensures AlignUp(v, Pow2(k)) % Pow2(k) == 0
    ensures forall w :: v <= w && w % Pow2(k) == 0 ==> AlignUp(v, Pow2(k)) <= w
  {
    hide And, Pow2;
    var a := Pow2(k);
    var x := v + a - 1;
    AndIsMod(x, k);
    LeastMultiple(v, a);
  }

  /** Rounding x = v + a - 1 down to a multiple of a rounds v up. */
  lemma LeastMultiple(v: nat, a: nat)
    requires a > 0
    ensures var x := v + a - 1;
            (x - x % a) % a == 0 && forall w :: v <= w && w % a == 0 ==> x - x % a <= w
  {
    var x := v + a - 1;
    var q, r := x / a, x % a;
    assert x == a * q + r;
    ModOf(a * q, a, q, 0);
    forall w | v <= w && w % a == 0 ensures x - r <= w {
      MultipleAbove(v, a, q, r, w);
    }
  }

  lemma MultipleAbove(v: nat, a: nat, q: nat, r: nat, w: nat)
    requires r < a && v + a - 1 == a * q + r && v <= w && w % a == 0
    ensures a * q <= w
  {
    var p := w / a;
    assert w == a * p;
    Distributes(a, q, p);
    AtLeastOne(a, q - p);
  }

  // ── Objects ────────────────────────────────────────────────────────────

  datatype Entry = Entry(
    handle: nat, id: nat, size: u32, align: u32, addr: nat, iova: nat, flags: u32, cached: bool, mapped: bool)

  predicate InCarveout(e: Entry, offset: nat) {
    CARVEOUT_BASE <= e.addr && e.addr + e.size <= CARVEOUT_BASE + offset && e.addr % PAGE == 0
  }

  /** An object is mapped exactly when it has an address, and then it lies in the issued part of the carveout. */
  predicate Placed(e: Entry, offset: nat) {
    && (e.mapped <==> e.addr != 0)
    && (e.mapped ==> InCarveout(e, offset) && e.iova == e.addr)
  }

  predicate Apart(a: Entry, b: Entry) {
    a.mapped && b.mapped ==> a.addr + a.size <= b.addr || b.addr + b.size <= a.addr
  }

  ghost predicate Disjoint(es: seq<Entry>) {
    forall i, j :: 0 <= i < j < |es| ==> Apart(es[i], es[j])
  }

  ghost predicate AllPlaced(es: seq<Entry>, offset: nat) {
    offset % PAGE == 0 && offset <= CARVEOUT_SIZE && forall i :: 0 <= i < |es| ==> Placed(es[i], offset)
  }

  predicate Named(e: Entry, next: nat) {
    e.handle == HandleOf(e.id) && 0 < e.id < next
  }

  /** The index sends each handle to the one entry that has it. */
  ghost predicate Indexed(es: seq<Entry>, index: map<nat, nat>, next: nat) {
    && 0 < next <= ID_LIMIT + 1
    && (forall i :: 0 <= i < |es| ==> Named(es[i], next) && es[i].handle in index && index[es[i].handle] == i)
    && (forall h :: h in index ==> index[h] < |es| && es[index[h]].handle == h)
  }

  /** A created object takes the next id and is not placed. */
  lemma CreateKeeps(es: seq<Entry>, index: map<nat, nat>, next: nat, e: Entry)
    requires Indexed(es, index, next) && next <= ID_LIMIT && e.id == next && e.handle == HandleOf(next)
    ensures Indexed(es + [e], index[e.handle := |es|], next + 1)
  {
    var more, index' := es + [e], index[e.handle := |es|];
    hide HandleOf;
    forall i | 0 <= i < |more|
      ensures Named(more[i], next + 1) && more[i].handle in index' && index'[more[i].handle] == i
    {
      if i < |es| {
        assert Named(es[i], next);
        HandleFresh(es[i].id, next);
      }
    }
  }

  lemma HandleFresh(id: nat, next: nat)
    requires 0 < id < next <= ID_LIMIT
    ensures HandleOf(id) != HandleOf(next)
  {
    if HandleOf(id) == HandleOf(next) {
      HandlesDistinct(id, next);
    }
  }

  lemma UnplacedKeeps(es: seq<Entry>, e: Entry, offset: nat)
    requires AllPlaced(es, offset) && Disjoint(es) && !e.mapped && e.addr == 0
    ensures AllPlaced(es + [e], offset) && Disjoint(es + [e])
  {
    var more := es + [e];
    forall i | 0 <= i < |more| ensures Placed(more[i], offset) {
      if i < |es| {
        assert Placed(es[i], offset);
      }
    }
    forall i, j | 0 <= i < j < |more| ensures Apart(more[i], more[j]) {
      if j < |es| {
        assert Apart(es[i], es[j]);
      }
    }
  }

  /** Replacing an entry by one with the same name keeps the index. */
  lemma SameName(es: seq<Entry>, index: map<nat, nat>, next: nat, k: nat, e: Entry)
    requires Indexed(es, index, next) && k < |es| && e.handle == es[k].handle && e.id == es[k].id
    ensures Indexed(es[k := e], index, next)
  {
    hide HandleOf;
    assert Named(es[k], next);
  }

  /** Placing an object at the end of the issued part, or taking its place away, keeps the regions apart. */
  lemma PlaceKeeps(es: seq<Entry>, k: nat, e: Entry, offset: nat, offset': nat)
    requires AllPlaced(es, offset) && Disjoint(es) && k < |es|
    requires offset <= offset' <= CARVEOUT_SIZE && offset' % PAGE == 0 && Placed(e, offset')
    requires !e.mapped || e.addr >= CARVEOUT_BASE + offset || (es[k].mapped && e.addr == es[k].addr && e.size == es[k].size)
    ensures AllPlaced(es[k := e], offset') && Disjoint(es[k := e])
  {
    var n := es[k := e];
    forall i | 0 <= i < |n| ensures Placed(n[i], offset') {
      assert Placed(es[i], offset);
    }
    forall i, j | 0 <= i < j < |n| ensures Apart(n[i], n[j]) {
      assert Apart(es[i], es[j]) && Placed(es[i], offset) && Placed(es[j], offset);
    }
  }

  // ── The service ────────────────────────────────────────────────────────

  datatype AllocRequest = AllocRequest(handle: nat, flags: u32, align: u32, kind: nat)

  class NvMapTable {
    var entries: seq<Entry>
    var index: map<nat, nat>
    var nextId: u32
    var offset: nat
    /** Whether guest memory is available. */
    var memory: bool

    ghost predicate Valid()
      reads this
    {
      Indexed(entries, index, nextId) && AllPlaced(entries, offset) && Disjoint(entries)
    }

    constructor (memory: bool)
      ensures Valid() && entries == [] && offset == 0 && nextId == 1
    {
      entries, index, nextId, offset, this.memory := [], map[], 1, 0, memory;
    }

    /** A new object; up to the id limit its handle is its own. */
    method Create(size: u32, align: u32) returns (handle: nat)
      modifies this`entries, this`index, this`nextId
      ensures handle == HandleOf(old(nextId)) && nextId == (old(nextId) + 1) % 0x1_0000_0000
      ensures entries == old(entries) + [Entry(handle, old(nextId), size, align, 0, 0, 0, true, false)]
      ensures index == old(index)[handle := |old(entries)|]
      ensures old(Valid()) && old(nextId) <= ID_LIMIT ==> Valid() && handle !in old(index)
    {
      var e := Entry(HandleOf(nextId), nextId, size, align, 0, 0, 0, true, false);
      hide HandleOf, Indexed, AllPlaced, Disjoint;
      if Valid() && nextId <= ID_LIMIT {
        CreateKeeps(entries, index, nextId, e);
        UnplacedKeeps(entries, e, offset);
        HandleUnused(entries, index, nextId);
      }
      handle := e.handle;
      index := index[handle := |entries|];
      entries := entries + [e];
      nextId := (nextId + 1) % 0x1_0000_0000;
    }

    /** Creation through the ioctl: the alignment is a page until an allocation sets it. */
    method HandleCreate(size: u32) returns (handle: nat)
      requires Valid() && nextId <= ID_LIMIT
      modifies this`entries, this`index, this`nextId
      ensures Valid() && handle !in old(index) && nextId == old(nextId) + 1
      ensures entries == old(entries) + [Entry(handle, old(nextId), size, PAGE, 0, 0, 0, true, false)]
      ensures index == old(index)[handle := |old(entries)|]
    {
      hide Valid, HandleOf;
      handle := Create(size, PAGE);
    }

    /** The convenience call creates an object but allocates nothing for it. */
    method NvMapAlloc(size: u32, align: u32) returns (handle: nat)
      requires Valid() && nextId <= ID_LIMIT
      modifies this`entries, this`index, this`nextId
      ensures Valid() && handle !in old(index) && nextId == old(nextId) + 1
      ensures entries == old(entries) + [Entry(handle, old(nextId), size, if align > 0 then align else PAGE, 0, 0, 0, true, false)]
      ensures index == old(index)[handle := |old(entries)|]
    {
      hide Valid, HandleOf;
      handle := Create(size, if align > 0 then align else PAGE);
    }

    method Lookup(handle: nat) returns (e: Option<Entry>)
      requires Valid()
      ensures e.Some? <==> handle in index
      ensures e.Some? ==> e.value in entries && e.value.handle == handle
    {
      if handle in index && index[handle] < |entries| {
        e := Some(entries[index[handle]]);
      } else {
        e := None;
      }
    }

    /**
     Allocation; the ioctl's reply is zero whatever happens. A known object
     without an address is placed at the end of the issued part when the
     carveout has room and the pages can be mapped.
     */
    method HandleAlloc(inputSize: nat, request: AllocRequest, mappable: bool) returns (reply: u32)
      requires Valid()
      modifies this`entries, this`offset
      ensures Valid() && |entries| == |old(entries)| && old(offset) <= offset && reply == 0
      ensures inputSize < 0x20 || request.handle !in index ==> entries == old(entries) && offset == old(offset)
      ensures inputSize >= 0x20 && request.handle in index ==>
                var k := index[request.handle];
                && entries == old(entries)[k := entries[k]]
                && Allocated(old(entries[k]), entries[k], request, old(offset), offset, memory && mappable)
    {
      hide HandleOf, AlignUp;
      reply := 0;
      if inputSize < 0x20 || request.handle !in index {
        return;
      }
      var k := index[request.handle];
      var e := entries[k].(align := if request.align > 0 then request.align else PAGE, flags := request.flags,
                           cached := request.kind == 0 || request.kind == 1);
      ghost var es := entries;
      assert Placed(es[k], offset);
      var end := offset;
      if e.addr == 0 && memory {
        var size := AlignUp(e.size, e.align);
        if offset + size <= CARVEOUT_SIZE {
          if MapPhysical(CARVEOUT_BASE + offset, size, mappable) {
            e := e.(addr := CARVEOUT_BASE + offset, iova := CARVEOUT_BASE + offset, mapped := true);
            end := offset + size;
          }
        }
      }
      SameName(entries, index, nextId, k, e);
      PlaceKeeps(entries, k, e, offset, end);
      entries, offset := entries[k := e], end;
    }

    /** An object gives up its address; the carveout keeps what it issued. */
    method HandleFree(handle: nat)
      requires Valid()
      modifies this`entries
      ensures Valid() && |entries| == |old(entries)|
      ensures handle !in index ==> entries == old(entries)
      ensures handle in index ==> entries == old(entries)[index[handle] := old(entries[index[handle]]).(addr := 0, mapped := false)]
    {
      hide HandleOf;
      if handle in index {
        var k := index[handle];
        var e := entries[k].(addr := 0, mapped := false);
        SameName(entries, index, nextId, k, e);
        PlaceKeeps(entries, k, e, offset, offset);
        entries := entries[k := e];
      }
    }
  }

  /** Mapping needs page alignment and may fail for reasons outside the table. */
  predicate MapPhysical(address: nat, size: nat, mappable: bool) {
    address % PAGE == 0 && size % PAGE == 0 && address + size <= ADDRESS_SPACE && mappable
  }

  /** The effect of an allocation on its object and on the end of the issued part. */
  predicate Allocated(before: Entry, after: Entry, request: AllocRequest, offset: nat, end: nat, mappable: bool) {
    var align := if request.align > 0 then request.align else PAGE;
    var size := AlignUp(before.size, align);
    var cached := request.kind == 0 || request.kind == 1;
    var set_ := before.(align := align, flags := request.flags, cached := cached);
    if before.addr == 0 && mappable && size % PAGE == 0 && offset + size <= CARVEOUT_SIZE then
      after == set_.(addr := CARVEOUT_BASE + offset, iova := CARVEOUT_BASE + offset, mapped := true) && end == offset + size
    else after == set_ && end == offset
  }

  lemma HandleUnused(es: seq<Entry>, index: map<nat, nat>, next: nat)
    requires Indexed(es, index, next) && next <= ID_LIMIT
    ensures HandleOf(next) !in index
  {
    hide HandleOf;
    if HandleOf(next) in index {
      var e := es[index[HandleOf(next)]];
      assert Named(e, next);
      HandleFresh(e.id, next);
    }
  }

  // ── Runs ───────────────────────────────────────────────────────────────

  /** What a guest can ask of the service; whether pages can be mapped is decided from outside. */
  datatype Op =
    | Make(size: u32)
    | MakeAligned(size: u32, align: u32)
    | Place(inputSize: nat, request: AllocRequest, mappable: bool)
    | Free(handle: nat)

  /** How many objects the operations create. */
  function Creations(ops: seq<Op>): nat {
    if ops == [] then 0
    else Creations(ops[..|ops| - 1]) + if ops[|ops| - 1].Make? || ops[|ops| - 1].MakeAligned? then 1 else 0
  }

  lemma {:induction false} CreationsGrow(ops: seq<Op>, k: nat)
    requires k < |ops|
    ensures Creations(ops[..k + 1]) <= Creations(ops)
    ensures Creations(ops[..k + 1]) == Creations(ops[..k]) + if ops[k].Make? || ops[k].MakeAligned? then 1 else 0
    decreases |ops|
  {
    assert ops[..k + 1][..k] == ops[..k];
    if k < |ops| - 1 {
      var init := ops[..|ops| - 1];
      CreationsGrow(init, k);
      assert init[..k + 1] == ops[..k + 1] && init[..k] == ops[..k];
    } else {
      assert ops[..k + 1] == ops;
    }
  }

  method Perform(t: NvMapTable, op: Op)
    requires t.Valid() && (op.Make? || op.MakeAligned? ==> t.nextId <= ID_LIMIT)
    modifies t
    ensures t.Valid() && t.nextId == old(t.nextId) + (if op.Make? || op.MakeAligned? then 1 else 0)
    ensures |t.entries| == |old(t.entries)| + (if op.Make? || op.MakeAligned? then 1 else 0) && old(t.offset) <= t.offset
    ensures forall i :: 0 <= i < |old(t.entries)| ==> SameObject(old(t.entries)[i], t.entries[i])
  {
    hide Indexed, AllPlaced, Disjoint, HandleOf, AlignUp;
    match op
    case Make(size) => var h := t.HandleCreate(size);
    case MakeAligned(size, align) => var h := t.NvMapAlloc(size, align);
    case Place(inputSize, request, mappable) => var reply := t.HandleAlloc(inputSize, request, mappable);
    case Free(handle) => t.HandleFree(handle);
  }

  /** An object keeps its handle, its id and its size. */
  predicate SameObject(a: Entry, b: Entry) {
    a.handle == b.handle && a.id == b.id && a.size == b.size
  }

  /**
   After any operations on a new table, up to the limit of ids: objects that have
   an address lie in the issued part of the carveout and apart from each other,
   different objects have different handles, and each is found under its own.
   */
  method Serve(memory: bool, ops: seq<Op>) returns (t: NvMapTable)
    requires Creations(ops) <= ID_LIMIT
    ensures t.Valid() && |t.entries| == Creations(ops)
    ensures forall i :: 0 <= i < |t.entries| ==> (t.entries[i].mapped ==> InCarveout(t.entries[i], t.offset))
    ensures forall i, j :: 0 <= i < j < |t.entries| ==> Apart(t.entries[i], t.entries[j]) && t.entries[i].handle != t.entries[j].handle
    ensures forall i :: 0 <= i < |t.entries| ==> t.entries[i].handle in t.index && t.index[t.entries[i].handle] == i
  {
    hide HandleOf;
    t := new NvMapTable(memory);
    assert ops[..0] == [];
    for k := 0 to |ops|
      invariant fresh(t) && t.Valid() && |t.entries| == Creations(ops[..k]) && t.nextId == 1 + Creations(ops[..k])
    {
      CreationsGrow(ops, k);
      Perform(t, ops[k]);
    }
    assert ops[..|ops|] == ops;
  }
}
