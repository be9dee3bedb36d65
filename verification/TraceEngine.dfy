/**
 The trace engine: a ring buffer of fixed capacity that behaves as an
 append-only log of which the newest entries can be queried.
 */
module TraceEngine {
  import opened Arithmetic
  import opened Common
  import opened Sequences

  /** Channels are numbered 0 to 5; events may name others, which are never enabled. */
  const CHANNELS: nat := 6
  const CAPACITY: nat := 0x10_0000

  datatype Event = Event(
    timestamp: nat, guestPc: nat, threadId: nat, channel: nat, eventId: nat, arg0: nat, arg1: nat, result: nat)

  /** The cell of the ring that a position uses. */
  function Cell(pos: nat): (c: nat)
    ensures c < CAPACITY
  {
    pos % CAPACITY
  }

  /** The ring's cells hold the entries from position readPos on. */
  ghost predicate Mirrors(cells: seq<Event>, log: seq<Event>, readPos: nat) {
    |cells| == CAPACITY && forall i :: readPos <= i < |log| ==> cells[Cell(i)] == log[i]
  }

  ghost predicate Counted(counts: seq<nat>, log: seq<Event>)
    requires |counts| == CHANNELS
  {
    forall c :: 0 <= c < CHANNELS ==> counts[c] == CountOf(log, c)
  }

  type Filter = Event -> bool

  datatype Stats = Stats(perChannel: seq<nat>, total: nat, dropped: nat, capacity: nat)

  // ── The log ────────────────────────────────────────────────────────────

  function CountOf(log: seq<Event>, ch: nat): nat {
    if log == [] then 0 else CountOf(log[..|log| - 1], ch) + (if log[|log| - 1].channel == ch then 1 else 0)
  }

  /** How many entries the ring has lost. */
  function Lost(n: nat): nat {
    if n > CAPACITY then n - CAPACITY else 0
  }

  /** The entries the ring still holds. */
  function Kept(log: seq<Event>): seq<Event> {
    log[Lost(|log|)..]
  }

  predicate Matches(e: Event, ch: nat, from: nat, to: nat) {
    e.channel == ch && from <= e.timestamp <= to
  }

  /** The newest n matching entries among the first k, oldest first. */
  function Newest(log: seq<Event>, k: nat, ch: nat, from: nat, to: nat, n: nat): (r: seq<Event>)
    requires k <= |log|
    ensures |r| <= n
  {
    if k == 0 || n == 0 then []
    else if Matches(log[k - 1], ch, from, to) then Newest(log, k - 1, ch, from, to, n - 1) + [log[k - 1]]
    else Newest(log, k - 1, ch, from, to, n)
  }

  /** What a query returns: the newest n matching entries the ring still holds. */
  function Answer(log: seq<Event>, ch: nat, from: nat, to: nat, n: nat): seq<Event> {
    Newest(Kept(log), |Kept(log)|, ch, from, to, n)
  }

  ghost predicate Ordered(log: seq<Event>) {
    forall i, j :: 0 <= i < j < |log| ==> log[i].timestamp < log[j].timestamp
  }

  ghost predicate Sorted(s: seq<Event>) {
    forall i, j :: 0 <= i < j < |s| ==> s[i].timestamp <= s[j].timestamp
  }

  /** Every entry returned is a match among the first k. */
  lemma {:induction false} NewestInLog(log: seq<Event>, k: nat, ch: nat, from: nat, to: nat, n: nat)
    requires k <= |log|
    ensures forall e :: e in Newest(log, k, ch, from, to, n) ==> e in log[..k] && Matches(e, ch, from, to)
    decreases k
  {
    if k > 0 && n > 0 {
      NewestInLog(log, k - 1, ch, from, to, if Matches(log[k - 1], ch, from, to) then n - 1 else n);
      assert log[..k] == log[..k - 1] + [log[k - 1]];
    }
  }

  lemma {:induction false} NewestOrdered(log: seq<Event>, k: nat, ch: nat, from: nat, to: nat, n: nat)
    requires k <= |log| && Ordered(log)
    ensures Ordered(Newest(log, k, ch, from, to, n))
    decreases k
  {
    if k > 0 && n > 0 {
      var n' := if Matches(log[k - 1], ch, from, to) then n - 1 else n;
      NewestOrdered(log, k - 1, ch, from, to, n');
      NewestInLog(log, k - 1, ch, from, to, n');
      var older := Newest(log, k - 1, ch, from, to, n');
      forall i | 0 <= i < |older| ensures older[i].timestamp < log[k - 1].timestamp {
        assert older[i] in log[..k - 1];
      }
    }
  }

  /** No newer match is missing: a match left out is older than every entry returned, and then n were returned. */
  lemma {:induction false} NewestComplete(log: seq<Event>, k: nat, ch: nat, from: nat, to: nat, n: nat, j: nat)
    requires j < k <= |log| && Ordered(log) && Matches(log[j], ch, from, to)
    ensures var r := Newest(log, k, ch, from, to, n);
            log[j] in r || (|r| == n && forall x :: x in r ==> log[j].timestamp < x.timestamp)
    decreases k
  {
    if n > 0 && j < k - 1 {
      NewestComplete(log, k - 1, ch, from, to, if Matches(log[k - 1], ch, from, to) then n - 1 else n, j);
    }
  }

  lemma SameHead(a: seq<Event>, b: seq<Event>)
    requires Sorted(a) && Ordered(b) && multiset(a) == multiset(b) && a != [] && b != []
    ensures a[0] == b[0]
  {
    assert a[0] in multiset(b) && b[0] in multiset(a);
    var j :| 0 <= j < |b| && b[j] == a[0];
    var i :| 0 <= i < |a| && a[i] == b[0];
    assert a[0].timestamp <= a[i].timestamp;
  }

  lemma SameTail<T>(a: seq<T>, b: seq<T>)
    requires a != [] && b != [] && a[0] == b[0] && multiset(a) == multiset(b)
    ensures multiset(a[1..]) == multiset(b[1..])
  {
    assert a == [a[0]] + a[1..] && b == [b[0]] + b[1..];
    assert multiset(a[1..]) == multiset(a) - multiset{a[0]};
    assert multiset(b[1..]) == multiset(b) - multiset{b[0]};
  }

  /** A sorted rearrangement of entries with distinct, increasing timestamps is those entries in order. */
  lemma {:induction false} SortedUnique(a: seq<Event>, b: seq<Event>)
    requires Sorted(a) && Ordered(b) && multiset(a) == multiset(b)
    ensures a == b
    decreases |a|
  {
    SameSize(a, b);
    if a != [] {
      SameHead(a, b);
      SameTail(a, b);
      SortedUnique(a[1..], b[1..]);
      assert a == [a[0]] + a[1..] && b == [b[0]] + b[1..];
    }
  }

  lemma SameSize(a: seq<Event>, b: seq<Event>)
    requires multiset(a) == multiset(b)
    ensures |a| == |b|
  {
    assert |multiset(a)| == |a| && |multiset(b)| == |b|;
  }

  // ── Sorting ────────────────────────────────────────────────────────────

  /** Any sort by timestamp would do: the order of equal timestamps is not promised. */
  method SortByTime(events: seq<Event>) returns (sorted: seq<Event>)
    ensures Sorted(sorted) && multiset(sorted) == multiset(events)
  {
    sorted := [];
    for i := 0 to |events|
      invariant Sorted(sorted) && multiset(sorted) == multiset(events[..i])
    {
      assert events[..i + 1] == events[..i] + [events[i]];
      sorted := Insert(sorted, events[i]);
    }
    assert events[..|events|] == events;
  }

  method Insert(s: seq<Event>, e: Event) returns (r: seq<Event>)
    requires Sorted(s)
    ensures Sorted(r) && multiset(r) == multiset(s) + multiset{e}
  {
    var k := 0;
    while k < |s| && s[k].timestamp <= e.timestamp
      invariant 0 <= k <= |s| && forall i :: 0 <= i < k ==> s[i].timestamp <= e.timestamp
    {
      k := k + 1;
    }
    r := s[..k] + [e] + s[k..];
    InsertSorts(s, k, e);
  }

  /** An event put behind the last that is not later keeps the order. */
  lemma InsertSorts(s: seq<Event>, k: nat, e: Event)
    requires Sorted(s) && k <= |s|
    requires forall i :: 0 <= i < k ==> s[i].timestamp <= e.timestamp
    requires k < |s| ==> e.timestamp <= s[k].timestamp
    ensures Sorted(s[..k] + [e] + s[k..]) && multiset(s[..k] + [e] + s[k..]) == multiset(s) + multiset{e}
  {
    InsertedElements(s, k, e);
    InsertedAt(s, k, e);
    var r := s[..k] + [e] + s[k..];
    forall i, j | 0 <= i < j < |r| ensures r[i].timestamp <= r[j].timestamp {
      if i == k {
        assert s[k].timestamp <= s[j - 1].timestamp;
      }
    }
  }

  lemma InsertedElements<T>(s: seq<T>, k: nat, e: T)
    requires k <= |s|
    ensures multiset(s[..k] + [e] + s[k..]) == multiset(s) + multiset{e}
  {
    assert s == s[..k] + s[k..];
  }

  lemma InsertedAt<T>(s: seq<T>, k: nat, e: T)
    requires k <= |s|
    ensures var r := s[..k] + [e] + s[k..];
            |r| == |s| + 1 && forall i :: 0 <= i < |r| ==> r[i] == if i < k then s[i] else if i == k then e else s[i - 1]
  {
  }

  // ── The engine ─────────────────────────────────────────────────────────

  /** The event a filter sees: its payload, without time, program counter or thread. */
  function FilterView(e: Event): Event {
    e.(timestamp := 0, guestPc := 0, threadId := 0)
  }

  class Engine {
    var ring: array?<Event>
    var writePos: nat
    var readPos: nat
    var total: nat
    var dropped: nat
    var counts: seq<nat>
    var enabled: bool
    var channelEnabled: seq<bool>
    var filters: seq<Option<Filter>>
    /** Every event recorded since the engine was created or cleared. */
    ghost var log: seq<Event>

    ghost predicate Valid()
      reads this, ring
    {
      && |counts| == CHANNELS && |channelEnabled| == CHANNELS && |filters| == CHANNELS
      && (ring == null ==> log == [] && total == 0 && readPos == 0 && dropped == writePos && counts == seq(CHANNELS, c => 0))
      && (ring != null ==>
            && ring.Length == CAPACITY && writePos == total == |log| && readPos == dropped == Lost(|log|)
            && Counted(counts, log) && Mirrors(ring[..], log, readPos))
    }

    /** What recording an event depends on. */
    predicate Accepts(e: Event)
      requires |channelEnabled| == CHANNELS && |filters| == CHANNELS
      reads this
    {
      && enabled && e.channel < CHANNELS && channelEnabled[e.channel]
      && (filters[e.channel].Some? ==> filters[e.channel].value(FilterView(e)))
    }

    /** The mapping of the ring may fail; only the first two channels start enabled. */
    constructor (buffer: array?<Event>)
      requires buffer != null ==> buffer.Length == CAPACITY
      ensures Valid() && log == [] && ring == buffer
      ensures enabled && forall c :: 0 <= c < CHANNELS ==> (channelEnabled[c] <==> c < 2) && filters[c] == None
    {
      ring := buffer;
      writePos, readPos, total, dropped := 0, 0, 0, 0;
      counts := seq(CHANNELS, c => 0);
      enabled, channelEnabled, filters := true, seq(CHANNELS, c => c < 2), seq(CHANNELS, c => None);
      log := [];
    }

    /** Takes the next position; on overflow the oldest entry is given up. */
    method AllocateSlot() returns (pos: Option<nat>)
      requires Valid()
      modifies this`writePos, this`readPos, this`dropped
      ensures writePos == old(writePos) + 1
      ensures ring == null ==> pos == None && dropped == old(dropped) + 1 && readPos == old(readPos)
      ensures ring != null ==> pos == Some(old(writePos)) && readPos == dropped == Lost(|log| + 1)
    {
      var at := writePos;
      writePos := writePos + 1;
      if ring == null {
        dropped := dropped + 1;
        return None;
      }
      if at - readPos > CAPACITY - 1 {
        dropped := dropped + 1;
        readPos := at - CAPACITY + 1;
      }
      pos := Some(at);
    }

    /** Appends an accepted event to the log, if there is a ring. */
    method Record(e: Event)
      requires Valid()
      modifies this, ring
      ensures Valid() && ring == old(ring)
      ensures log == if old(Accepts(e)) && ring != null then old(log) + [e] else old(log)
      ensures enabled == old(enabled) && channelEnabled == old(channelEnabled) && filters == old(filters)
    {
      if !enabled || e.channel >= CHANNELS || !channelEnabled[e.channel] {
        return;
      }
      if filters[e.channel].Some? {
        var view := FilterView(e);
        if !filters[e.channel].value(view) {
          return;
        }
      }
      var pos := AllocateSlot();
      if pos.None? {
        return;
      }
      Store(pos.value, e);
    }

    /** Writes an event to its cell and counts it. */
    method Store(pos: nat, e: Event)
      requires |counts| == |channelEnabled| == |filters| == CHANNELS && e.channel < CHANNELS
      requires ring != null && ring.Length == CAPACITY
      requires pos == total == |log| && writePos == pos + 1 && readPos == dropped == Lost(|log| + 1)
      requires Counted(counts, log) && Mirrors(ring[..], log, Lost(|log|))
      modifies this`counts, this`total, this`log, ring
      ensures Valid() && log == old(log) + [e]
    {
      hide Cell, Lost, Counted, Mirrors;
      ghost var cells := ring[..];
      ring[Cell(pos)] := e;
      assert ring[..] == cells[Cell(pos) := e];
      MirrorsMore(cells, log, e);
      CountedMore(counts, log, e);
      counts := counts[e.channel := counts[e.channel] + 1];
      total := total + 1;
      log := log + [e];
    }

    /** The entry at a position the ring still holds. */
    function Entry(pos: nat): (e: Event)
      requires Valid() && ring != null && readPos <= pos < writePos
      reads this, ring
      ensures pos - readPos < |Kept(log)| && e == Kept(log)[pos - readPos]
    {
      ring[Cell(pos)]
    }

    lemma Positions()
      requires Valid()
      ensures readPos <= writePos && |Kept(log)| == if ring == null then 0 else writePos - readPos
    {
    }

    /** The matching entries, newest first, until enough are found. */
    method Collect(ch: nat, from: nat, to: nat, maxCount: nat) returns (result: seq<Event>)
      requires Valid()
      ensures multiset(result) == multiset(Answer(log, ch, from, to, maxCount))
    {
      Positions();
      hide Valid, Newest, Matches, Kept;
      result := [];
      ghost var kept, picked: seq<Event> := Kept(log), [];
      if ring == null {
        NewestEnds(kept, 0, ch, from, to, maxCount);
        return;
      }
      var i := writePos;
      NothingLast(Newest(kept, |kept|, ch, from, to, maxCount));
      while i > readPos && |result| < maxCount
        invariant readPos <= i <= writePos && |result| == |picked| <= maxCount
        invariant multiset(result) == multiset(picked)
        invariant Newest(kept, |kept|, ch, from, to, maxCount) ==
                  Newest(kept, i - readPos, ch, from, to, maxCount - |picked|) + picked
      {
        var e := Entry(i - 1);
        NewestStep(kept, i - readPos, ch, from, to, maxCount - |picked|, picked);
        if Matches(e, ch, from, to) {
          PushBoth(result, picked, e);
          result, picked := result + [e], [e] + picked;
        }
        i := i - 1;
      }
      NewestEnds(kept, i - readPos, ch, from, to, maxCount - |picked|);
      NothingFirst(picked);
    }

    /** The newest matching entries the ring still holds, sorted by time. */
    method Query(ch: nat, from: nat, to: nat, maxCount: nat) returns (result: seq<Event>)
      requires Valid()
      ensures Sorted(result) && multiset(result) == multiset(Answer(log, ch, from, to, maxCount))
      ensures Ordered(log) ==> result == Answer(log, ch, from, to, maxCount)
    {
      hide Valid, Newest;
      result := Collect(ch, from, to, maxCount);
      result := SortByTime(result);
      if Ordered(log) {
        KeptOrdered(log);
        NewestOrdered(Kept(log), |Kept(log)|, ch, from, to, maxCount);
        SortedUnique(result, Answer(log, ch, from, to, maxCount));
      }
    }

    method GetStats() returns (stats: Stats)
      requires Valid()
      ensures stats.total == |log| && stats.capacity == CAPACITY && |stats.perChannel| == CHANNELS
      ensures forall c :: 0 <= c < CHANNELS ==> stats.perChannel[c] == CountOf(log, c)
      ensures ring != null ==> stats.dropped == if stats.total > CAPACITY then stats.total - CAPACITY else 0
    {
      stats := Stats(counts, total, dropped, CAPACITY);
    }

    /** Starts a new log; cells of the ring keep their contents. */
    method Clear()
      requires Valid()
      modifies this
      ensures Valid() && log == [] && ring == old(ring)
      ensures enabled == old(enabled) && channelEnabled == old(channelEnabled) && filters == old(filters)
    {
      writePos, readPos, total, dropped := 0, 0, 0, 0;
      counts := seq(CHANNELS, c => 0);
      log := [];
    }

    method EnableChannel(ch: nat, enable: bool)
      requires Valid()
      modifies this`channelEnabled
      ensures Valid()
      ensures channelEnabled == if ch < CHANNELS then old(channelEnabled)[ch := enable] else old(channelEnabled)
    {
      if ch < CHANNELS {
        channelEnabled := channelEnabled[ch := enable];
      }
    }

    method SetFilter(ch: nat, filter: Option<Filter>)
      requires Valid()
      modifies this`filters
      ensures Valid() && filters == if ch < CHANNELS then old(filters)[ch := filter] else old(filters)
    {
      if ch < CHANNELS {
        filters := filters[ch := filter];
      }
    }
  }

  lemma NewestEnds(log: seq<Event>, k: nat, ch: nat, from: nat, to: nat, n: nat)
    requires k <= |log| && (k == 0 || n == 0)
    ensures Newest(log, k, ch, from, to, n) == []
  {
  }

  lemma NewestStep(log: seq<Event>, k: nat, ch: nat, from: nat, to: nat, n: nat, picked: seq<Event>)
    requires 0 < k <= |log| && n > 0
    ensures Newest(log, k, ch, from, to, n) + picked ==
            if Matches(log[k - 1], ch, from, to) then Newest(log, k - 1, ch, from, to, n - 1) + ([log[k - 1]] + picked)
            else Newest(log, k - 1, ch, from, to, n) + picked
  {
    Associative(Newest(log, k - 1, ch, from, to, n - 1), [log[k - 1]], picked);
  }

  lemma PushBoth<T>(a: seq<T>, b: seq<T>, x: T)
    requires multiset(a) == multiset(b)
    ensures multiset(a + [x]) == multiset([x] + b)
  {
  }

  lemma KeptOrdered(log: seq<Event>)
    requires Ordered(log)
    ensures Ordered(Kept(log))
  {
  }

  lemma MirrorsMore(cells: seq<Event>, log: seq<Event>, e: Event)
    requires Mirrors(cells, log, Lost(|log|))
    ensures Mirrors(cells[Cell(|log|) := e], log + [e], Lost(|log| + 1))
  {
    var pos, more := |log|, log + [e];
    forall i | Lost(pos + 1) <= i < |more| ensures cells[Cell(pos) := e][Cell(i)] == more[i] {
      if i < pos {
        CellsDiffer(i, pos, CAPACITY);
      }
    }
  }

  lemma CountedMore(counts: seq<nat>, log: seq<Event>, e: Event)
    requires |counts| == CHANNELS && Counted(counts, log) && e.channel < CHANNELS
    ensures Counted(counts[e.channel := counts[e.channel] + 1], log + [e])
  {
    hide CountOf;
    CountSnoc(log, e);
  }

  lemma CountSnoc(log: seq<Event>, e: Event)
    ensures forall c :: CountOf(log + [e], c) == CountOf(log, c) + (if e.channel == c then 1 else 0)
  {
    assert (log + [e])[..|log|] == log;
  }

  /** Positions less than a capacity apart use different cells. */
  lemma CellsDiffer(i: nat, j: nat, m: nat)
    requires i < j < i + m
    ensures i % m != j % m
  {
    assert i == m * (i / m) + i % m && j == m * (j / m) + j % m;
    if i % m == j % m {
      AtLeastOne(m, j / m - i / m);
    }
  }

}
