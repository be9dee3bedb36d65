/**
 From method writes to queued draws: the 3D engine's registers that a draw
 depends on, and the queue of draws with the registers at their triggers.
 */
module StateTracker {
  import opened Common
  import opened GPFifo

  // ── The 3D engine ──────────────────────────────────────────────────────

  const DRAW_ARRAYS_FIRST: nat := 0x35D
  const DRAW_ARRAYS_COUNT: nat := 0x35E
  const DRAW_ELEMENTS_FIRST: nat := 0x5F7
  const DRAW_ELEMENTS_COUNT: nat := 0x5F8
  const VERTEX_BEGIN: nat := 0x586
  const INDEX_START_LOW: nat := 0x5F2
  const INDEX_START_HIGH: nat := 0x5F3
  const INDEX_FORMAT: nat := 0x5F6

  /** Methods routed to arrays of registers before any other: none of them is part of a draw. */
  predicate Routed(m: nat) {
    0x200 <= m < 0x240 || 0x280 <= m < 0x2E0 || 0x380 <= m < 0x390 || 0x458 <= m < 0x478 || 0x4D8 <= m < 0x4E0
    || 0x4E5 <= m <= 0x4E7 || 0x680 <= m < 0x688 || 0x700 <= m < 0x740 || 0x780 <= m < 0x7B8 || 0x7C0 <= m < 0x7D0
    || 0x800 <= m < 0x80C || 0x620 <= m < 0x630
  }

  /** The registers a draw is made of; the index buffer's address is kept in halves. */
  datatype Registers = Registers(
    primitive: nat, arraysFirst: u32, arraysCount: u32, elementsFirst: u32, elementsCount: u32,
    indexLow: u32, indexHigh: u32, indexFormat: u32)

  const RESET := Registers(0, 0, 0, 0, 0, 0, 0, 0)

  predicate Trigger(m: nat) {
    m == DRAW_ARRAYS_COUNT || m == DRAW_ELEMENTS_COUNT
  }

  /** A method write to the engine; the value is the whole register except where noted. */
  function Written(r: Registers, m: nat, value: u32): Registers {
    if Routed(m) then r
    else if m == DRAW_ARRAYS_FIRST then r.(arraysFirst := value)
    else if m == DRAW_ARRAYS_COUNT then r.(arraysCount := value)
    else if m == DRAW_ELEMENTS_FIRST then r.(elementsFirst := value)
    else if m == DRAW_ELEMENTS_COUNT then r.(elementsCount := value)
    else if m == VERTEX_BEGIN then r.(primitive := value % 0x10)
    else if m == INDEX_START_LOW then r.(indexLow := value)
    else if m == INDEX_START_HIGH then r.(indexHigh := value)
    else if m == INDEX_FORMAT then r.(indexFormat := value)
    else r
  }

  class Engine3D {
    var state: Registers

    constructor ()
      ensures state == RESET
    {
      state := RESET;
    }

    /** Routes a write to its register and says whether it triggers a draw. */
    method HandleMethod(m: nat, value: u32) returns (isDraw: bool)
      modifies this
      ensures state == Written(old(state), m, value)
      ensures isDraw <==> Trigger(m)
    {
      isDraw := false;
      if Routed(m) {
        return;
      }
      match m
      case 0x35D => state := state.(arraysFirst := value);
      case 0x35E => state, isDraw := state.(arraysCount := value), true;
      case 0x5F7 => state := state.(elementsFirst := value);
      case 0x5F8 => state, isDraw := state.(elementsCount := value), true;
      case 0x586 => state := state.(primitive := value % 0x10);
      case 0x5F2 => state := state.(indexLow := value);
      case 0x5F3 => state := state.(indexHigh := value);
      case 0x5F6 => state := state.(indexFormat := value);
      case _ =>
    }
  }

  // ── The tracker, as functions ──────────────────────────────────────────

  datatype EngineType = E3D | E2D | EDma | EInline | ECompute

  /** The fixed assignment of engines to subchannels. */
  function EngineOf(subch: nat): EngineType {
    if subch == 1 then E2D else if subch == 2 then EDma else if subch == 3 then EInline else if subch == 4 then ECompute else E3D
  }

  datatype Draw = Draw(
    primitive: nat, arraysFirst: u32, arraysCount: u32, elementsFirst: u32, elementsCount: u32,
    indexLow: u32, indexHigh: u32, indexFormat: u32, indexCount: u32)

  function Snapshot(r: Registers): Draw {
    Draw(r.primitive, r.arraysFirst, r.arraysCount, r.elementsFirst, r.elementsCount, r.indexLow, r.indexHigh, r.indexFormat,
         r.elementsCount)
  }

  datatype Tracker = Tracker(registers: Registers, queue: seq<Draw>, dirty: bool)

  /** A write that triggers a draw: a draw count, on a subchannel of the 3D engine. */
  predicate Draws(w: Write) {
    EngineOf(w.subch).E3D? && Trigger(w.method_)
  }

  function OnWrite(t: Tracker, w: Write): Tracker {
    if !EngineOf(w.subch).E3D? then t
    else
      var r := Written(t.registers, w.method_, w.value);
      if Trigger(w.method_) then Tracker(r.(arraysCount := 0, elementsCount := 0), t.queue + [Snapshot(r)], true)
      else Tracker(r, t.queue, true)
  }

  function OnWrites(t: Tracker, ws: seq<Write>): Tracker {
    if ws == [] then t else OnWrite(OnWrites(t, ws[..|ws| - 1]), ws[|ws| - 1])
  }

  // ── Properties of every run ────────────────────────────────────────────

  /** Between methods neither draw count is left over. */
  predicate Idle(t: Tracker) {
    t.registers.arraysCount == 0 && t.registers.elementsCount == 0
  }

  lemma {:induction false} StaysIdle(t: Tracker, ws: seq<Write>)
    requires Idle(t)
    ensures Idle(OnWrites(t, ws))
  {
    if ws != [] {
      StaysIdle(t, ws[..|ws| - 1]);
    }
  }

  function DrawCount(ws: seq<Write>): nat {
    if ws == [] then 0 else DrawCount(ws[..|ws| - 1]) + (if Draws(ws[|ws| - 1]) then 1 else 0)
  }

  /** The queue grows by one draw for each trigger. */
  lemma {:induction false} QueueLength(t: Tracker, ws: seq<Write>)
    ensures |OnWrites(t, ws).queue| == |t.queue| + DrawCount(ws)
  {
    if ws != [] {
      QueueLength(t, ws[..|ws| - 1]);
    }
  }

  /** The value last written to a register of the 3D engine, or the one it had before. */
  function Latest(ws: seq<Write>, m: nat, before: u32): u32 {
    if ws == [] then before
    else
      var w := ws[|ws| - 1];
      if EngineOf(w.subch).E3D? && w.method_ == m then w.value else Latest(ws[..|ws| - 1], m, before)
  }

  /** The primitive type last written, of which four bits count, or the one before. */
  function LatestPrimitive(ws: seq<Write>, before: nat): nat {
    if ws == [] then before
    else
      var w := ws[|ws| - 1];
      if EngineOf(w.subch).E3D? && w.method_ == VERTEX_BEGIN then w.value % 0x10 else LatestPrimitive(ws[..|ws| - 1], before)
  }

  /** The registers a draw does not reset hold what was last written to them. */
  lemma {:induction false} RegistersLatest(t: Tracker, ws: seq<Write>)
    ensures var r := OnWrites(t, ws).registers;
            && r.arraysFirst == Latest(ws, DRAW_ARRAYS_FIRST, t.registers.arraysFirst)
            && r.elementsFirst == Latest(ws, DRAW_ELEMENTS_FIRST, t.registers.elementsFirst)
            && r.indexLow == Latest(ws, INDEX_START_LOW, t.registers.indexLow)
            && r.indexHigh == Latest(ws, INDEX_START_HIGH, t.registers.indexHigh)
            && r.indexFormat == Latest(ws, INDEX_FORMAT, t.registers.indexFormat)
            && r.primitive == LatestPrimitive(ws, t.registers.primitive)
  {
    if ws != [] {
      RegistersLatest(t, ws[..|ws| - 1]);
    }
  }

  /** Earlier draws stay in the queue. */
  lemma {:induction false} QueuePrefix(t: Tracker, ws: seq<Write>, n: nat)
    requires n <= |ws|
    ensures OnWrites(t, ws[..n]).queue <= OnWrites(t, ws).queue
    decreases |ws|
  {
    if n < |ws| {
      var init := ws[..|ws| - 1];
      QueuePrefix(t, init, n);
      assert init[..n] == ws[..n];
    } else {
      assert ws[..n] == ws;
    }
  }

  /** The draw a trigger queues: its own value in its own count, zero in the other, and the latest other registers. */
  ghost predicate DrawFits(d: Draw, ws: seq<Write>, i: nat, r: Registers)
    requires i < |ws|
  {
    var w, earlier := ws[i], ws[..i];
    && d.arraysCount == (if w.method_ == DRAW_ARRAYS_COUNT then w.value else 0)
    && d.elementsCount == (if w.method_ == DRAW_ELEMENTS_COUNT then w.value else 0)
    && d.indexCount == d.elementsCount
    && d.arraysFirst == Latest(earlier, DRAW_ARRAYS_FIRST, r.arraysFirst)
    && d.elementsFirst == Latest(earlier, DRAW_ELEMENTS_FIRST, r.elementsFirst)
    && d.indexLow == Latest(earlier, INDEX_START_LOW, r.indexLow)
    && d.indexHigh == Latest(earlier, INDEX_START_HIGH, r.indexHigh)
    && d.indexFormat == Latest(earlier, INDEX_FORMAT, r.indexFormat)
    && d.primitive == LatestPrimitive(earlier, r.primitive)
  }

  /** Each trigger's draw is in the queue, at the position its number among the triggers gives. */
  lemma DrawQueued(t: Tracker, ws: seq<Write>, i: nat)
    requires Idle(t) && i < |ws| && Draws(ws[i])
    ensures var k := |t.queue| + DrawCount(ws[..i]);
            k < |OnWrites(t, ws).queue| && DrawFits(OnWrites(t, ws).queue[k], ws, i, t.registers)
  {
    var earlier := ws[..i];
    StaysIdle(t, earlier);
    QueueLength(t, earlier);
    RegistersLatest(t, earlier);
    QueuePrefix(t, ws, i + 1);
    assert ws[..i + 1][..i] == earlier;
    hide Latest, LatestPrimitive, DrawCount;
    var before := OnWrites(t, earlier);
    assert OnWrites(t, ws[..i + 1]) == OnWrite(before, ws[i]);
  }

  /** Two stretches of writes are one. */
  lemma {:induction false} OnWritesAppend(t: Tracker, a: seq<Write>, b: seq<Write>)
    ensures OnWrites(t, a + b) == OnWrites(OnWrites(t, a), b)
  {
    hide OnWrite;
    if b == [] {
      assert a + b == a;
    } else {
      var c := a + b;
      OnWritesAppend(t, a, b[..|b| - 1]);
      assert c[..|c| - 1] == a + b[..|b| - 1];
    }
  }

  // ── The tracker ────────────────────────────────────────────────────────

  class StateTracker {
    const parser: Parser
    const engine3d: Engine3D
    var drawQueue: seq<Draw>
    var dirty: bool

    ghost function View(): Tracker
      reads this, engine3d
    {
      Tracker(engine3d.state, drawQueue, dirty)
    }

    constructor ()
      ensures View() == Tracker(RESET, [], false) && Idle(View()) && fresh(engine3d)
    {
      parser := new Parser();
      engine3d := new Engine3D();
      drawQueue, dirty := [], false;
    }

    /** One method write: updates a register, and queues a draw when it triggers one. */
    method OnMethod(w: Write)
      modifies this, engine3d
      ensures View() == OnWrite(old(View()), w)
    {
      hide Routed;
      if EngineOf(w.subch).E3D? {
        var isDraw := engine3d.HandleMethod(w.method_, w.value);
        dirty := true;
        if isDraw {
          var st := engine3d.state;
          drawQueue := drawQueue + [Snapshot(st)];
          engine3d.state := st.(arraysCount := 0, elementsCount := 0);
        }
      }
    }

    /** Parses a pushbuffer and applies the writes it fires. */
    method PushBuffer(words: seq<u32>) returns (consumed: nat)
      requires Idle(View())
      modifies this, engine3d
      ensures View() == OnWrites(old(View()), Run(words).fired) && consumed == Run(words).consumed
      ensures Idle(View())
      ensures |drawQueue| == |old(drawQueue)| + DrawCount(Run(words).fired)
    {
      hide OnWrite, Run, Idle, DrawCount;
      ghost var before := View();
      var fired, pos := parser.Process(words);
      assert fired[..0] == [];
      for i := 0 to |fired|
        invariant View() == OnWrites(before, fired[..i])
      {
        OnMethod(fired[i]);
        assert fired[..i + 1][..i] == fired[..i];
      }
      assert fired[..|fired|] == fired;
      StaysIdle(before, fired);
      QueueLength(before, fired);
      consumed := pos;
    }

    /** Hands over the whole queue. */
    method ConsumeDraws() returns (draws: seq<Draw>)
      modifies this`drawQueue
      ensures draws == old(drawQueue) && drawQueue == []
    {
      draws, drawQueue := drawQueue, [];
    }

    method ClearDirty()
      modifies this`drawQueue, this`dirty
      ensures drawQueue == [] && !dirty
    {
      drawQueue, dirty := [], false;
    }
  }

  /**
   A pushbuffer may be cut anywhere: pushing the pieces, with the unconsumed
   words in front of the next, queues the same draws as pushing it whole.
   */
  lemma SplitPush(t: Tracker, a: seq<u32>, b: seq<u32>)
    ensures var p := Run(a).consumed;
            OnWrites(t, Run(a + b).fired) == OnWrites(OnWrites(t, Run(a).fired), Run(a[p..] + b).fired)
  {
    hide Run;
    Streaming(a, b);
    OnWritesAppend(t, Run(a).fired, Run(a[Run(a).consumed..] + b).fired);
  }
}
