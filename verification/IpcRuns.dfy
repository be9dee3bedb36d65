/**
 Runs of the IPC manager: any list of registrations, connections, closings and
 requests, with whatever services there are and whatever they ask of the
 manager while they answer.
 */
module IpcRuns {
  import opened Common
  import opened IpcMessage
  import opened IpcManager

  /** What can be asked of the manager. A request brings its bytes and the services' behaviour at that time. */
  datatype Op =
    | Call(call: Callback)
    | End(id: u32)
    | Ask(id: u32, data: seq<Byte>, size: nat, serve: (Service, Request) -> Answer)

  /** The id counters have room for the operation. */
  ghost predicate Possible(t: Table, op: Op) {
    match op
    case Call(c) => c.Registered? || t.next < LAST_ID
    case End(_) => true
    case Ask(_, data, size, serve) =>
      size <= |data| && Room(serve, t.next) && forall k :: 0 <= k < |t.sessions| ==> t.sessions[k].next < LAST_ID
  }

  function Do(t: Table, op: Op): Table
    requires Possible(t, op)
  {
    match op
    case Call(c) => Called(t, c)
    case End(id) => t.(sessions := Without(t.sessions, id))
    case Ask(id, data, size, serve) => Requested(t, id, data, size, serve)
  }

  ghost predicate AllPossible(t: Table, ops: seq<Op>)
    decreases |ops|
  {
    ops == [] || (Possible(t, ops[0]) && AllPossible(Do(t, ops[0]), ops[1..]))
  }

  ghost function Run(t: Table, ops: seq<Op>): Table
    requires AllPossible(t, ops)
    decreases |ops|
  {
    if ops == [] then t else Run(Do(t, ops[0]), ops[1..])
  }

  /** The operation closes the session: an explicit close, or a close request to it. */
  ghost predicate Closes(t: Table, op: Op, id: u32) {
    match op
    case End(x) => x == id
    case Ask(x, data, size, _) =>
      && x == id && Live(t.sessions, id) && 8 <= size <= |data|
      && ParseRequest(data, size, t.sessions[IndexOf(t.sessions, id)].isDomain).type_ == 2
    case _ => false
  }

  ghost predicate NeverCloses(t: Table, ops: seq<Op>, id: u32)
    requires AllPossible(t, ops)
    decreases |ops|
  {
    ops == [] || (!Closes(t, ops[0], id) && NeverCloses(Do(t, ops[0]), ops[1..], id))
  }

  ghost predicate Ok(t: Table) {
    TableOk(t.sessions, t.next, t.issued)
  }

  const START := Table(map[], [], FIRST_SESSION, map[])

  // ── The manager's methods are these operations ─────────────────────────

  method Perform(m: Manager, op: Op, response: array<Byte>)
    requires m.Valid() && Possible(m.View(), op) && response.Length >= LEAST_BUFFER
    requires op.Ask? ==> IpcManager.Fits(op.serve, response.Length)
    modifies m, response
    ensures m.Valid() && m.View() == Do(old(m.View()), op)
  {
    hide TableOk;
    match op
    case Call(Registered(name, service)) => m.RegisterService(name, service);
    case Call(Connected(name)) => var id := m.Connect(name);
    case Call(Made(service)) => var id := m.CreateSession(service);
    case End(id) => m.CloseSession(id);
    case Ask(id, data, size, serve) =>
      var code, n, answer := m.HandleRequest(id, data, size, response, serve);
  }

  // ── One operation ──────────────────────────────────────────────────────

  /** Nothing that was ever issued is forgotten or changed. */
  ghost predicate Remembers(t: Table, u: Table) {
    t.next <= u.next && forall p :: p in t.issued ==> p in u.issued && u.issued[p] == t.issued[p]
  }

  lemma CalledOk(t: Table, c: Callback)
    requires Ok(t) && (c.Registered? || t.next < LAST_ID)
    ensures Ok(Called(t, c))
  {
    hide TableOk;
    match c
    case Registered(_, _) =>
    case Connected(name) =>
      AddedOk(t.sessions, t.next, t.issued, Session(t.next, name, ServiceNamed(t.services, name), false, false, 1, map[]));
    case Made(service) =>
      AddedOk(t.sessions, t.next, t.issued, Session(t.next, "(anonymous)", Some(service), false, true, 1, map[]));
  }

  /** Whatever a service asks of the manager while it answers, the table's invariant is kept. */
  lemma {:induction false} CallsOk(t: Table, calls: seq<Callback>)
    requires Ok(t) && t.next + Opened(calls) < LAST_ID
    ensures Ok(AfterCalls(t, calls))
  {
    hide Ok, Called;
    if calls != [] {
      var k := |calls| - 1;
      CallsOk(t, calls[..k]);
      CalledOk(AfterCalls(t, calls[..k]), calls[k]);
    }
  }

  lemma CommandOk(t: Table, i: nat, slot: Slot, answer: Answer)
    requires Ok(t) && i < |t.sessions| && t.sessions[i].next < LAST_ID && t.next + Opened(answer.calls) < LAST_ID
    requires t.sessions[i].service.Some?
    ensures var u := Commanded(t, i, slot, answer); Ok(u) && Remembers(t, u)
  {
    hide TableOk, Extract, AfterCalls;
    var grown := AfterCalls(t, answer.calls);
    CallsOk(t, answer.calls);
    ExtractPlaces(answer.out, slot, t.sessions[i].isDomain, grown.sessions);
    var ex := Extract(answer.out, slot, t.sessions[i].isDomain, grown.sessions);
    if ex.AsObject? {
      assert grown.sessions[i] == t.sessions[i];
      IssuedOk(grown.sessions, grown.next, t.issued, i, ex.service);
    }
  }

  lemma DoOk(t: Table, op: Op)
    requires Ok(t) && Possible(t, op)
    ensures Ok(Do(t, op)) && Remembers(t, Do(t, op))
  {
    hide TableOk, Commanded, ParseRequest, SlotFor;
    match op
    case Call(c) => CalledOk(t, c);
    case End(id) => WithoutOk(t.sessions, t.next, t.issued, id);
    case Ask(id, data, size, serve) =>
      var i := IndexOf(t.sessions, id);
      if i < |t.sessions| && size >= 8 {
        WithoutOk(t.sessions, t.next, t.issued, id);
        DomainOk(t.sessions, t.next, t.issued, i);
        var s := t.sessions[i];
        if s.service.Some? {
          var req := ParseRequest(data, size, s.isDomain);
          CommandOk(t, i, SlotFor(s, req), serve(TargetOf(s, req.object_), req));
        }
      }
  }

  // ── Runs ───────────────────────────────────────────────────────────────

  /** Every run keeps the table's invariant, never takes an issued object back, and never lowers the session counter. */
  lemma {:induction false} RunOk(t: Table, ops: seq<Op>)
    requires Ok(t) && AllPossible(t, ops)
    ensures Ok(Run(t, ops)) && Remembers(t, Run(t, ops))
    decreases |ops|
  {
    hide Ok;
    if ops != [] {
      DoOk(t, ops[0]);
      RunOk(Do(t, ops[0]), ops[1..]);
    }
  }

  /**
   Routing over runs: once an object is issued under a session, then after any
   further operations a request naming it goes to the service it was issued for,
   as long as the session is live.
   */
  lemma IssuedReaches(t: Table, ops: seq<Op>, id: u32, object_: u32)
    requires Ok(t) && AllPossible(t, ops) && (id, object_) in t.issued
    ensures var u := Run(t, ops);
            Live(u.sessions, id) ==> Route(u.sessions[IndexOf(u.sessions, id)], object_) == Some(t.issued[(id, object_)])
  {
    hide Run, TableOk;
    RunOk(t, ops);
    var u := Run(t, ops);
    if Live(u.sessions, id) {
      RouteReaches(u.sessions, u.next, u.issued, id, object_);
    }
  }

  // ── The life of a session ──────────────────────────────────────────────

  function SessionOf(t: Table, id: u32): Session
    requires Live(t.sessions, id)
  {
    t.sessions[IndexOf(t.sessions, id)]
  }

  /** The same session, possibly made a domain and with more objects. */
  ghost predicate Same(a: Session, b: Session) {
    b.id == a.id && b.name == a.name && b.service == a.service && (a.isDomain ==> b.isDomain) && a.next <= b.next
  }

  /** The session is in the table at some place, as it was or grown. */
  ghost predicate Kept(s: Session, sessions: seq<Session>) {
    exists k :: 0 <= k < |sessions| && Same(s, sessions[k])
  }

  lemma KeptAt(s: Session, sessions: seq<Session>, k: nat)
    requires k < |sessions| && Same(s, sessions[k])
    ensures Kept(s, sessions)
  {
  }

  lemma KeptFound(s: Session, u: Table)
    requires Ok(u) && Kept(s, u.sessions)
    ensures Live(u.sessions, s.id) && Same(s, SessionOf(u, s.id))
  {
    var k :| 0 <= k < |u.sessions| && Same(s, u.sessions[k]);
    FoundAt(u.sessions, u.next, k);
  }

  lemma WithoutKeeps(sessions: seq<Session>, i: nat, id: u32)
    requires i < |sessions| && sessions[i].id != id
    ensures Kept(sessions[i], Without(sessions, id))
  {
    var j := IndexOf(sessions, id);
    KeptAt(sessions[i], Without(sessions, id), if j < |sessions| && j < i then i - 1 else i);
  }

  lemma CommandKeeps(t: Table, i: nat, j: nat, slot: Slot, answer: Answer)
    requires i < |t.sessions| && j < |t.sessions| && t.sessions[i].next < LAST_ID && t.next + Opened(answer.calls) < LAST_ID
    ensures Kept(t.sessions[j], Commanded(t, i, slot, answer).sessions)
  {
    hide Extract;
    KeptAt(t.sessions[j], Commanded(t, i, slot, answer).sessions, j);
  }

  /** An operation that does not close a session keeps it, whatever else it does. */
  lemma DoKeeps(t: Table, op: Op, id: u32)
    requires Ok(t) && Possible(t, op) && Live(t.sessions, id) && !Closes(t, op, id)
    ensures Live(Do(t, op).sessions, id) && Same(SessionOf(t, id), SessionOf(Do(t, op), id))
  {
    hide TableOk, Commanded, ParseRequest, SlotFor, Extract;
    var j, u := IndexOf(t.sessions, id), Do(t, op);
    DoOk(t, op);
    match op {
      case End(x) => WithoutKeeps(t.sessions, j, x);
      case Ask(x, data, size, serve) =>
        var i := IndexOf(t.sessions, x);
        if i < |t.sessions| && size >= 8 {
          var s := t.sessions[i];
          var req := ParseRequest(data, size, s.isDomain);
          if req.type_ == 2 {
            WithoutKeeps(t.sessions, j, x);
          } else if s.service.Some? && req.type_ != 5 {
            CommandKeeps(t, i, j, SlotFor(s, req), serve(TargetOf(s, req.object_), req));
          } else {
            KeptAt(t.sessions[j], u.sessions, j);
          }
        } else {
          KeptAt(t.sessions[j], u.sessions, j);
        }
      case _ => KeptAt(t.sessions[j], u.sessions, j);
    }
    KeptFound(t.sessions[j], u);
  }

  /** A session lives until it is closed, and stays what it was. */
  lemma {:induction false} LivesUntilClosed(t: Table, ops: seq<Op>, id: u32)
    requires Ok(t) && AllPossible(t, ops) && Live(t.sessions, id) && NeverCloses(t, ops, id)
    ensures var u := Run(t, ops); Live(u.sessions, id) && Same(SessionOf(t, id), SessionOf(u, id))
    decreases |ops|
  {
    hide Ok, Closes, Do;
    if ops != [] {
      DoOk(t, ops[0]);
      DoKeeps(t, ops[0], id);
      LivesUntilClosed(Do(t, ops[0]), ops[1..], id);
    }
  }

  /** No live session has the id. */
  ghost predicate Gone(t: Table, id: u32) {
    id < t.next && forall k :: 0 <= k < |t.sessions| ==> t.sessions[k].id != id
  }

  lemma {:induction false} CallsGone(t: Table, calls: seq<Callback>, id: u32)
    requires Gone(t, id) && t.next + Opened(calls) < LAST_ID
    ensures Gone(AfterCalls(t, calls), id)
  {
    if calls != [] {
      CallsGone(t, calls[..|calls| - 1], id);
    }
  }

  lemma CommandGone(t: Table, i: nat, slot: Slot, answer: Answer, id: u32)
    requires Gone(t, id) && i < |t.sessions| && t.sessions[i].next < LAST_ID && t.next + Opened(answer.calls) < LAST_ID
    ensures Gone(Commanded(t, i, slot, answer), id)
  {
    hide Extract, AfterCalls;
    CallsGone(t, answer.calls, id);
  }

  lemma WithoutGone(t: Table, x: u32, id: u32)
    requires Gone(t, id)
    ensures Gone(t.(sessions := Without(t.sessions, x)), id)
  {
  }

  lemma DomainGone(t: Table, i: nat, id: u32)
    requires Gone(t, id) && i < |t.sessions|
    ensures Gone(t.(sessions := t.sessions[i := t.sessions[i].(isDomain := true)]), id)
  {
  }

  lemma CalledGone(t: Table, c: Callback, id: u32)
    requires Gone(t, id) && (c.Registered? || t.next < LAST_ID)
    ensures Gone(Called(t, c), id)
  {
  }

  lemma DoGone(t: Table, op: Op, id: u32)
    requires Possible(t, op) && Gone(t, id)
    ensures Gone(Do(t, op), id)
  {
    hide Gone, Commanded, Called, Without, ParseRequest, SlotFor;
    match op {
      case Call(c) => CalledGone(t, c, id);
      case End(x) => WithoutGone(t, x, id);
      case Ask(x, data, size, serve) =>
        var i := IndexOf(t.sessions, x);
        if i < |t.sessions| && size >= 8 {
          WithoutGone(t, x, id);
          DomainGone(t, i, id);
          var s := t.sessions[i];
          if s.service.Some? {
            var req := ParseRequest(data, size, s.isDomain);
            CommandGone(t, i, SlotFor(s, req), serve(TargetOf(s, req.object_), req), id);
          }
        }
    }
  }

  /** Session ids are never used again: once closed, an id stays dead. */
  lemma {:induction false} NeverReused(t: Table, ops: seq<Op>, id: u32)
    requires AllPossible(t, ops) && id < t.next && !Live(t.sessions, id)
    ensures !Live(Run(t, ops).sessions, id)
  {
    StaysGone(t, ops, id);
  }

  lemma {:induction false} StaysGone(t: Table, ops: seq<Op>, id: u32)
    requires AllPossible(t, ops) && Gone(t, id)
    ensures Gone(Run(t, ops), id)
    decreases |ops|
  {
    hide Gone, Do;
    if ops != [] {
      DoGone(t, ops[0], id);
      StaysGone(Do(t, ops[0]), ops[1..], id);
    }
  }

  // ── Objects ────────────────────────────────────────────────────────────

  /**
   When a command in a domain answers with the handle of a live session, the next
   object id, never issued before, is issued for the service behind that handle.
   */
  lemma ObjectIssued(t: Table, i: nat, answer: Answer)
    requires Ok(t) && i < |t.sessions| && t.sessions[i].next < LAST_ID && t.next + Opened(answer.calls) < LAST_ID
    requires t.sessions[i].isDomain && answer.handled && |answer.out| >= 4
    ensures var s := t.sessions[i];
            var more, w := AfterCalls(t, answer.calls).sessions, U32At(answer.out, 0);
            var u := Commanded(t, i, NoSlot, answer);
            if 0 < w < PSEUDO_HANDLES && ServiceOf(more, w).Some?
            then (s.id, s.next) !in t.issued && u.issued == t.issued[(s.id, s.next) := ServiceOf(more, w).value]
            else u.issued == t.issued
  {
    hide U32At, AfterCalls;
    var s := t.sessions[i];
    assert ObjectsExact(s) && Recorded(s, t.issued);
  }

  // ── Connecting by name ─────────────────────────────────────────────────

  /** The name service's answer to a request for a service: it registers what it needs to, connects, and returns the handle. */
  function ConnectAnswer(t: Table, inits: seq<Callback>, name: string): Answer
    requires t.next + Opened(inits) < LAST_ID
  {
    Answer(true, Bytes4(t.next + Opened(inits)) + [0, 0, 0, 0], inits + [Connected(name)])
  }

  lemma CallsThen(t: Table, calls: seq<Callback>, c: Callback)
    requires t.next + Opened(calls + [c]) < LAST_ID
    ensures Opened(calls + [c]) == Opened(calls) + if c.Registered? then 0 else 1
    ensures AfterCalls(t, calls + [c]) == Called(AfterCalls(t, calls), c)
  {
    assert (calls + [c])[..|calls|] == calls;
  }

  /**
   A guest that asks the name service for a service gets the handle of a new
   session for the service of that name, registered just then or before. In a
   domain it gets the next object id instead, and nothing is issued when the name
   is unknown.
   */
  lemma ServiceGot(t: Table, i: nat, slot: Slot, inits: seq<Callback>, name: string)
    requires Ok(t) && i < |t.sessions| && t.sessions[i].next < LAST_ID && t.next + Opened(inits + [Connected(name)]) < LAST_ID
    requires 0 < t.next + Opened(inits) < PSEUDO_HANDLES
    requires t.sessions[i].service.Some? && (t.sessions[i].isDomain || !slot.NoSlot?)
    ensures var s, answer := t.sessions[i], ConnectAnswer(t, inits, name);
            var before, u := AfterCalls(t, inits), Commanded(t, i, slot, answer);
            var handle, service := before.next, ServiceNamed(before.services, name);
            && !Live(before.sessions, handle) && Live(u.sessions, handle)
            && SessionOf(u, handle) == Session(handle, name, service, false, false, 1, map[])
            && u.services == before.services
            && Extract(answer.out, slot, s.isDomain, AfterCalls(t, answer.calls).sessions) ==
               (if !s.isDomain then AsHandle(handle) else if service.Some? then AsObject(service.value) else Keep)
            && u.issued == if s.isDomain && service.Some? then t.issued[(s.id, s.next) := service.value] else t.issued
  {
    hide AfterCalls, Opened, U32At, Bytes4, TableOk, Extract, SessionOf, ServiceOf, IndexOf, ServiceNamed;
    var before, answer := AfterCalls(t, inits), ConnectAnswer(t, inits, name);
    var after := Called(before, Connected(name));
    CallsThen(t, inits, Connected(name));
    CallsOk(t, inits);
    CalledOk(before, Connected(name));
    LastFound(after);
    assert after.sessions[..|before.sessions|] == before.sessions;
    HandleExtracted(answer.out, before.next, slot, t.sessions[i].isDomain, after.sessions);
    CommandOk(t, i, slot, answer);
    LastFound(Commanded(t, i, slot, answer));
  }

  lemma HandleExtracted(out: seq<Byte>, handle: u32, slot: Slot, isDomain: bool, sessions: seq<Session>)
    requires out == Bytes4(handle) + [0, 0, 0, 0] && 0 < handle < PSEUDO_HANDLES && (isDomain || !slot.NoSlot?)
    ensures var service := ServiceOf(sessions, handle);
            Extract(out, slot, isDomain, sessions) ==
            if !isDomain then AsHandle(handle) else if service.Some? then AsObject(service.value) else Keep
  {
    hide U32At, Bytes4, ServiceOf;
    WordReads([], handle, [0, 0, 0, 0]);
    assert out == [] + Bytes4(handle) + [0, 0, 0, 0];
  }

  /** The newest session of a table is found by its id. */
  lemma LastFound(t: Table)
    requires Ok(t) && t.sessions != []
    ensures var s := t.sessions[|t.sessions| - 1];
            Live(t.sessions, s.id) && SessionOf(t, s.id) == s && ServiceOf(t.sessions, s.id) == s.service
    ensures !Live(t.sessions[..|t.sessions| - 1], t.sessions[|t.sessions| - 1].id)
  {
    var k := |t.sessions| - 1;
    FoundAt(t.sessions, t.next, k);
    assert forall j :: 0 <= j < k ==> t.sessions[..k][j].id != t.sessions[k].id;
  }

  /** After any run from the start the objects issued under a live session are exactly 1 up to its next one. */
  lemma ExactIds(ops: seq<Op>, id: u32, k: u32)
    requires AllPossible(START, ops) && Live(Run(START, ops).sessions, id)
    ensures var u := Run(START, ops); (id, k) in u.issued <==> 1 <= k < SessionOf(u, id).next
  {
    hide Run;
    RunOk(START, ops);
    var u := Run(START, ops);
    assert ObjectsExact(SessionOf(u, id)) && Recorded(SessionOf(u, id), u.issued);
  }

  /**
   From the issuing of an object until its session is closed, whatever happens
   between, a command of that session naming the object goes to the service the
   object was issued for.
   */
  lemma RequestReaches(t: Table, ops: seq<Op>, id: u32, object_: u32)
    requires Ok(t) && AllPossible(t, ops) && (id, object_) in t.issued && Live(t.sessions, id) && NeverCloses(t, ops, id)
    ensures var u := Run(t, ops);
            && Live(u.sessions, id) && SessionOf(u, id).service.Some?
            && TargetOf(SessionOf(u, id), object_) == t.issued[(id, object_)]
  {
    hide Run, Route;
    LivesUntilClosed(t, ops, id);
    assert ObjectsExact(SessionOf(t, id)) && Recorded(SessionOf(t, id), t.issued);
    assert object_ in SessionOf(t, id).objects;
    IssuedReaches(t, ops, id, object_);
  }
}
