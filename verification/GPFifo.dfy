/**
 The pushbuffer parser: command headers, the packets they introduce, and the
 method writes a pushbuffer fires.
 */
module GPFifo {
  import opened Common
  import opened Sequences

  // ── Headers ────────────────────────────────────────────────────────────

  const INCREASING: nat := 1
  const NON_INCREASING: nat := 3
  const INLINE: nat := 4
  const INCREASE_ONCE: nat := 5

  type Method = m: nat | m < 0x2000
  type Subchannel = s: nat | s < 8

  /** Method in bits 12 to 0, subchannel in 15 to 13, argument in 28 to 16, mode in 31 to 29. */
  function MakeHeader(mode: nat, method_: nat, arg: nat, subch: nat): u32 {
    method_ % 0x2000 + (subch % 8) * 0x2000 + (arg % 0x2000) * 0x1_0000 + (mode % 8) * 0x2000_0000
  }

  function GetMethod(header: u32): Method { header % 0x2000 }
  function GetSubchannel(header: u32): Subchannel { (header / 0x2000) % 8 }
  function GetArg(header: u32): (a: nat)
    ensures a < 0x2000
  {
    (header / 0x1_0000) % 0x2000
  }
  function GetMode(header: u32): (m: nat)
    ensures m < 8
  {
    (header / 0x2000_0000) % 8
  }

  /** The readers take a header apart into the fields it was made of. */
  lemma HeaderFields(mode: nat, method_: Method, arg: nat, subch: Subchannel)
    requires mode < 8 && arg < 0x2000
    ensures var h := MakeHeader(mode, method_, arg, subch);
            GetMode(h) == mode && GetMethod(h) == method_ && GetArg(h) == arg && GetSubchannel(h) == subch
  {
    var h := MakeHeader(mode, method_, arg, subch);
    assert h / 0x2000 == subch + arg * 8 + mode * 0x1_0000;
    assert h / 0x1_0000 == arg + mode * 0x2000;
    assert h / 0x2000_0000 == mode;
  }

  /** Every header is made of its own fields. */
  lemma HeaderRemade(h: u32)
    ensures MakeHeader(GetMode(h), GetMethod(h), GetArg(h), GetSubchannel(h)) == h
  {
    var a := h / 0x2000;
    var b := a / 8;
    var c := b / 0x2000;
    assert b == h / 0x1_0000;
    assert c == h / 0x2000_0000 < 8;
    assert b == 0x2000 * c + b % 0x2000;
    assert a == 8 * b + a % 8;
    assert h == 0x2000 * a + h % 0x2000;
  }

  // ── Parsing ────────────────────────────────────────────────────────────

  /** One method write, as the callback receives it. */
  datatype Write = Write(subch: nat, method_: nat, value: u32)

  /** Semaphore, reference and syncpoint methods of the host channel: not forwarded. */
  predicate HostMethod(m: nat) {
    m == 0x004 || m == 0x006 || m == 0x007 || m == 0x014 || m == 0x01C || m == 0x01D
  }

  predicate Skipped(header: u32) {
    GetSubchannel(header) == 0 && HostMethod(GetMethod(header))
  }

  function IncreasingWrites(subch: nat, method_: nat, values: seq<u32>): (ws: seq<Write>)
    ensures |ws| == |values|
  {
    seq(|values|, i requires 0 <= i < |values| => Write(subch, method_ + i, values[i]))
  }

  function RepeatedWrites(subch: nat, method_: nat, values: seq<u32>): (ws: seq<Write>)
    ensures |ws| == |values|
  {
    seq(|values|, i requires 0 <= i < |values| => Write(subch, method_, values[i]))
  }

  /** How many words the command with this header takes. */
  function CommandLength(header: u32): (n: nat)
    ensures n > 0
  {
    if Skipped(header) then 1
    else if GetMode(header) == INCREASING || GetMode(header) == NON_INCREASING then 1 + GetArg(header)
    else if GetMode(header) == INCREASE_ONCE then 2
    else 1
  }

  /** The writes of a whole command: its header and its data words. */
  function CommandWrites(words: seq<u32>): seq<Write>
    requires words != [] && |words| == CommandLength(words[0])
  {
    var h := words[0];
    var subch, method_ := GetSubchannel(h), GetMethod(h);
    if Skipped(h) then []
    else if GetMode(h) == INCREASING then IncreasingWrites(subch, method_, words[1..])
    else if GetMode(h) == NON_INCREASING then RepeatedWrites(subch, method_, words[1..])
    else if GetMode(h) == INLINE then [Write(subch, method_, GetArg(h))]
    else if GetMode(h) == INCREASE_ONCE then [Write(subch, method_, words[1])]
    else []
  }

  /** The writes fired and the words consumed; a command cut short ends the run before it. */
  datatype Outcome = Outcome(fired: seq<Write>, consumed: nat)

  function Run(words: seq<u32>): (r: Outcome)
    ensures r.consumed <= |words|
    decreases |words|
  {
    if words == [] || CommandLength(words[0]) > |words| then Outcome([], 0)
    else
      var n := CommandLength(words[0]);
      var rest := Run(words[n..]);
      Outcome(CommandWrites(words[..n]) + rest.fired, n + rest.consumed)
  }

  class Parser {
    constructor () {
    }

    /** The command at a position: incomplete, or its writes and its length. */
    method Command(words: seq<u32>, pos: nat) returns (complete: bool, writes: seq<Write>, length: nat)
      requires pos < |words|
      ensures complete <==> pos + CommandLength(words[pos]) <= |words|
      ensures complete ==> length == CommandLength(words[pos]) && writes == CommandWrites(words[pos..pos + length])
    {
      hide GetMode, GetMethod, GetArg, GetSubchannel;
      var header := words[pos];
      var mode, method_, arg, subch := GetMode(header), GetMethod(header), GetArg(header), GetSubchannel(header);
      writes, length, complete := [], 1, true;
      if subch == 0 && HostMethod(method_) {
        return;
      }
      if mode == INCREASING || mode == NON_INCREASING {
        if pos + 1 + arg > |words| {
          return false, writes, length;
        }
        length := 1 + arg;
        var values := words[pos + 1..pos + length];
        assert words[pos..pos + length][1..] == values;
        if mode == INCREASING {
          writes := FireIncreasing(subch, method_, values);
        } else {
          writes := FireRepeated(subch, method_, values);
        }
      } else if mode == INLINE {
        writes := [Write(subch, method_, arg)];
      } else if mode == INCREASE_ONCE {
        if pos + 2 > |words| {
          return false, writes, length;
        }
        writes, length := [Write(subch, method_, words[pos + 1])], 2;
      }
    }

    /** Fires the writes of all complete commands, in order. */
    method Process(words: seq<u32>) returns (fired: seq<Write>, pos: nat)
      ensures Outcome(fired, pos) == Run(words)
    {
      hide Run, CommandLength, CommandWrites;
      fired, pos := [], 0;
      assert words[0..] == words;
      NothingFirst(Run(words).fired);
      while pos < |words|
        invariant pos <= |words|
        invariant Run(words) == Outcome(fired + Run(words[pos..]).fired, pos + Run(words[pos..]).consumed)
      {
        var complete, writes, length := Command(words, pos);
        if !complete {
          break;
        }
        RunAt(words, pos);
        Associative(fired, writes, Run(words[pos + length..]).fired);
        fired, pos := fired + writes, pos + length;
      }
      RunEnds(words[pos..]);
      NothingLast(fired);
    }

    method FireIncreasing(subch: nat, method_: nat, values: seq<u32>) returns (ws: seq<Write>)
      ensures ws == IncreasingWrites(subch, method_, values)
    {
      ws := [];
      for i := 0 to |values|
        invariant |ws| == i && forall k :: 0 <= k < i ==> ws[k] == Write(subch, method_ + k, values[k])
      {
        ws := ws + [Write(subch, method_ + i, values[i])];
      }
    }

    method FireRepeated(subch: nat, method_: nat, values: seq<u32>) returns (ws: seq<Write>)
      ensures ws == RepeatedWrites(subch, method_, values)
    {
      ws := [];
      for i := 0 to |values|
        invariant |ws| == i && forall k :: 0 <= k < i ==> ws[k] == Write(subch, method_, values[k])
      {
        ws := ws + [Write(subch, method_, values[i])];
      }
    }
  }

  lemma RunStep(words: seq<u32>)
    requires words != [] && CommandLength(words[0]) <= |words|
    ensures var n := CommandLength(words[0]);
            Run(words) == Outcome(CommandWrites(words[..n]) + Run(words[n..]).fired, n + Run(words[n..]).consumed)
  {
  }

  lemma RunAt(words: seq<u32>, pos: nat)
    requires pos < |words| && pos + CommandLength(words[pos]) <= |words|
    ensures var n := CommandLength(words[pos]); var rest := Run(words[pos + n..]);
            Run(words[pos..]) == Outcome(CommandWrites(words[pos..pos + n]) + rest.fired, n + rest.consumed)
  {
    hide Run, CommandLength, CommandWrites;
    var here, n := words[pos..], CommandLength(words[pos]);
    RunStep(here);
    assert here[..n] == words[pos..pos + n] && here[n..] == words[pos + n..];
  }

  lemma RunEnds(words: seq<u32>)
    requires words == [] || CommandLength(words[0]) > |words|
    ensures Run(words) == Outcome([], 0)
  {
  }

  // ── Streaming ──────────────────────────────────────────────────────────

  /**
   Streaming: if a run over a stops after p words, then the run over a followed
   by b is that run followed by the run over the unconsumed rest of a and b.
   */
  lemma {:induction false} Streaming(a: seq<u32>, b: seq<u32>)
    ensures var p := Run(a).consumed; var rest := Run(a[p..] + b);
            Run(a + b) == Outcome(Run(a).fired + rest.fired, p + rest.consumed)
    decreases |a|
  {
    hide Run, CommandLength, CommandWrites;
    if a == [] || CommandLength(a[0]) > |a| {
      RunEnds(a);
      assert a[0..] == a;
      NothingFirst(Run(a + b).fired);
    } else {
      var n := CommandLength(a[0]);
      var t := a[n..];
      Streaming(t, b);
      var p := Run(t).consumed;
      RunStep(a);
      RunStep(a + b);
      Slices(a, b, n, p);
      Associative(CommandWrites(a[..n]), Run(t).fired, Run(t[p..] + b).fired);
    }
  }

  // ── Packets ────────────────────────────────────────────────────────────

  datatype Packet =
    | Increasing(subch: Subchannel, method_: Method, values: seq<u32>)
    | NonIncreasing(subch: Subchannel, method_: Method, values: seq<u32>)
    | Inline(subch: Subchannel, method_: Method, data: nat)
    | Once(subch: Subchannel, method_: Method, value: u32)

  /** Data fits its field. */
  predicate Fitting(p: Packet) {
    (p.Increasing? || p.NonIncreasing? ==> |p.values| < 0x2000) && (p.Inline? ==> p.data < 0x2000)
  }

  /** A packet for one of the host's own methods. */
  predicate Host(p: Packet) {
    p.subch == 0 && HostMethod(p.method_)
  }

  /** The words behind a packet's header. */
  function Data(p: Packet): seq<u32> {
    match p
    case Increasing(_, _, values) => values
    case NonIncreasing(_, _, values) => values
    case Inline(_, _, _) => []
    case Once(_, _, value) => [value]
  }

  /** Not a host method, or one without data words. */
  predicate Encodable(p: Packet) {
    Fitting(p) && (!Host(p) || Data(p) == [])
  }

  function Encode(p: Packet): seq<u32> {
    match p
    case Increasing(s, m, values) => [MakeHeader(INCREASING, m, |values|, s)] + values
    case NonIncreasing(s, m, values) => [MakeHeader(NON_INCREASING, m, |values|, s)] + values
    case Inline(s, m, data) => [MakeHeader(INLINE, m, data, s)]
    case Once(s, m, value) => [MakeHeader(INCREASE_ONCE, m, 1, s), value]
  }

  /** The writes a packet asks for; host methods are not forwarded. */
  function WritesOf(p: Packet): seq<Write>
    requires Fitting(p)
  {
    if Host(p) then []
    else
      match p
      case Increasing(s, m, values) => IncreasingWrites(s, m, values)
      case NonIncreasing(s, m, values) => RepeatedWrites(s, m, values)
      case Inline(s, m, data) => [Write(s, m, data)]
      case Once(s, m, value) => [Write(s, m, value)]
  }

  predicate AllEncodable(ps: seq<Packet>) {
    forall i :: 0 <= i < |ps| ==> Encodable(ps[i])
  }

  function EncodeAll(ps: seq<Packet>): seq<u32> {
    if ps == [] then [] else Encode(ps[0]) + EncodeAll(ps[1..])
  }

  function AllWrites(ps: seq<Packet>): seq<Write>
    requires AllEncodable(ps)
  {
    if ps == [] then [] else WritesOf(ps[0]) + AllWrites(ps[1..])
  }

  function ModeOf(p: Packet): nat {
    match p
    case Increasing(_, _, _) => INCREASING
    case NonIncreasing(_, _, _) => NON_INCREASING
    case Inline(_, _, _) => INLINE
    case Once(_, _, _) => INCREASE_ONCE
  }

  /** What the readers find in a packet's header. */
  lemma HeaderParsed(p: Packet)
    requires Fitting(p)
    ensures var h := Encode(p)[0];
            && GetMode(h) == ModeOf(p) && GetSubchannel(h) == p.subch && GetMethod(h) == p.method_
            && GetArg(h) == if p.Inline? then p.data else |Data(p)|
    ensures Encode(p)[1..] == Data(p)
  {
    hide MakeHeader, GetMode, GetMethod, GetArg, GetSubchannel;
    HeaderFields(ModeOf(p), p.method_, if p.Inline? then p.data else |Data(p)|, p.subch);
  }

  /** The encoding is one command and its writes are the packet's. */
  predicate ParsesAs(p: Packet)
    requires Fitting(p)
  {
    CommandLength(Encode(p)[0]) == |Encode(p)| && CommandWrites(Encode(p)) == WritesOf(p)
  }

  /** A packet of any kind parses to its writes and its length if and only if it is not a host method or carries no data words. */
  lemma PacketExact(p: Packet)
    requires Fitting(p)
    ensures ParsesAs(p) <==> !Host(p) || Data(p) == []
  {
    hide MakeHeader, GetMode, GetMethod, GetArg, GetSubchannel, HostMethod;
    HeaderParsed(p);
  }

  /** Processing encoded packets fires exactly their writes, in order, and consumes every word. */
  lemma {:induction false} RoundTrip(ps: seq<Packet>)
    requires AllEncodable(ps)
    ensures Run(EncodeAll(ps)) == Outcome(AllWrites(ps), |EncodeAll(ps)|)
  {
    hide Encode, CommandLength, CommandWrites, WritesOf, Host, Data;
    if ps != [] {
      var first, rest := Encode(ps[0]), EncodeAll(ps[1..]);
      assert Encodable(ps[0]);
      PacketExact(ps[0]);
      RoundTrip(ps[1..]);
      assert (first + rest)[..|first|] == first && (first + rest)[|first|..] == rest;
      RunStep(first + rest);
    }
  }

  /**
   What becomes of a host packet of any kind: only its header is consumed, and its
   data words are then read as headers of commands.
   */
  lemma HostDataParsed(p: Packet, rest: seq<u32>)
    requires Fitting(p) && Host(p)
    ensures var after := Run(Data(p) + rest);
            Run(Encode(p) + rest) == Outcome(after.fired, 1 + after.consumed)
  {
    hide MakeHeader, GetMode, GetMethod, GetArg, GetSubchannel, Run, HostMethod;
    HeaderParsed(p);
    var words := Encode(p) + rest;
    assert words[1..] == Data(p) + rest;
    RunStep(words);
    NothingFirst(Run(Data(p) + rest).fired);
  }
}
