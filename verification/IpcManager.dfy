/**
 The IPC manager: the session table, the objects of domain sessions, and the
 handling of a request from its bytes to the bytes of the response.
 */
module IpcManager {
  import opened Common
  import opened IpcMessage

  /** A service object; the manager looks only at its identity and its name. */
  datatype Service = Service(object_: nat, name: string)

  datatype Session = Session(
    id: u32, name: string, service: Option<Service>, isDomain: bool, owns: bool, next: u32, objects: map<u32, Service>)

  const FIRST_SESSION: u32 := 0x1000
  const LAST_ID: u32 := 0xFFFF_FFFF

  // ── The session table ──────────────────────────────────────────────────

  /** Object ids handed out so far: exactly 1 up to the next one, and none outside a domain with a service. */
  ghost predicate ObjectsExact(s: Session) {
    1 <= s.next && (s.next > 1 ==> s.isDomain && s.service.Some?) && forall k: u32 :: k in s.objects <==> 1 <= k < s.next
  }

  /** Ids increase along the table and are below the next one. */
  ghost predicate Ascending(sessions: seq<Session>, next: u32) {
    && (forall i :: 0 <= i < |sessions| ==> sessions[i].id < next)
    && (forall i, j :: 0 <= i < j < |sessions| ==> sessions[i].id < sessions[j].id)
  }

  /** Every object ever handed out, by session and object id. */
  type Issued = map<(u32, u32), Service>

  /** The objects of a live session are exactly those handed out under its id. */
  ghost predicate Recorded(s: Session, issued: Issued) {
    forall k: u32 :: (k in s.objects <==> (s.id, k) in issued) && (k in s.objects ==> s.objects[k] == issued[(s.id, k)])
  }

  ghost predicate TableOk(sessions: seq<Session>, next: u32, issued: Issued) {
    && Ascending(sessions, next)
    && (forall i :: 0 <= i < |sessions| ==> ObjectsExact(sessions[i]) && Recorded(sessions[i], issued))
    && (forall p :: p in issued ==> p.0 < next)
  }

  function IndexOf(sessions: seq<Session>, id: u32): (i: nat)
    ensures i <= |sessions|
    ensures i < |sessions| ==> sessions[i].id == id
    ensures forall k :: 0 <= k < i ==> sessions[k].id != id
  {
    if sessions == [] || sessions[0].id == id then 0 else 1 + IndexOf(sessions[1..], id)
  }

  predicate Live(sessions: seq<Session>, id: u32) { IndexOf(sessions, id) < |sessions| }

  /** In an ascending table a session is found at its own place. */
  lemma FoundAt(sessions: seq<Session>, next: u32, i: nat)
    requires Ascending(sessions, next) && i < |sessions|
    ensures IndexOf(sessions, sessions[i].id) == i
  {
  }

  /** The service behind a session handle. */
  function ServiceOf(sessions: seq<Session>, id: u32): Option<Service> {
    if Live(sessions, id) then sessions[IndexOf(sessions, id)].service else None
  }

  /** Where a request goes: to the object it names, if the session is a domain that has it, or to the session's service. */
  function Route(s: Session, object_: u32): Option<Service> {
    if s.isDomain && object_ > 0 && object_ in s.objects then Some(s.objects[object_]) else s.service
  }

  lemma AddedOk(sessions: seq<Session>, next: u32, issued: Issued, s: Session)
    requires TableOk(sessions, next, issued) && s.id == next < LAST_ID && s.next == 1 && s.objects == map[]
    ensures TableOk(sessions + [s], next + 1, issued)
  {
    var more := sessions + [s];
    forall i | 0 <= i < |more| ensures ObjectsExact(more[i]) && Recorded(more[i], issued) {
      if i == |sessions| {
        NoneIssued(next, issued);
      } else {
        assert ObjectsExact(sessions[i]);
      }
    }
  }

  lemma NoneIssued(next: u32, issued: Issued)
    requires forall p :: p in issued ==> p.0 < next
    ensures forall k: u32 :: (next, k) !in issued
  {
    forall k: u32 ensures (next, k) !in issued {
      var p := (next, k);
      assert p.0 == next;
    }
  }

  lemma RemovedOk(sessions: seq<Session>, next: u32, issued: Issued, i: nat)
    requires TableOk(sessions, next, issued) && i < |sessions|
    ensures TableOk(sessions[..i] + sessions[i + 1..], next, issued)
    ensures !Live(sessions[..i] + sessions[i + 1..], sessions[i].id)
  {
    var less := sessions[..i] + sessions[i + 1..];
    forall j | 0 <= j < |less| ensures ObjectsExact(less[j]) && Recorded(less[j], issued) && less[j].id != sessions[i].id {
      var k := if j < i then j else j + 1;
      assert less[j] == sessions[k] && ObjectsExact(sessions[k]);
    }
  }

  /** A session with one object more. */
  function WithObject(s: Session, svc: Service): Session
    requires s.next < LAST_ID
  {
    s.(next := s.next + 1, objects := s.objects[s.next := svc])
  }

  /** Giving a domain session its next object. */
  lemma IssuedOk(sessions: seq<Session>, next: u32, issued: Issued, i: nat, svc: Service)
    requires TableOk(sessions, next, issued) && i < |sessions|
    requires sessions[i].isDomain && sessions[i].service.Some? && sessions[i].next < LAST_ID
    ensures var s := sessions[i];
            (s.id, s.next) !in issued && TableOk(sessions[i := WithObject(s, svc)], next, issued[(s.id, s.next) := svc])
  {
    var s := sessions[i];
    assert ObjectsExact(s) && Recorded(s, issued);
    var t := WithObject(s, svc);
    var n, more := sessions[i := t], issued[(s.id, s.next) := svc];
    forall j | 0 <= j < |n| ensures ObjectsExact(n[j]) && Recorded(n[j], more) {
      assert ObjectsExact(sessions[j]) && Recorded(sessions[j], issued);
      if j != i {
        assert sessions[j].id != s.id;
      }
    }
  }

  lemma DomainOk(sessions: seq<Session>, next: u32, issued: Issued, i: nat)
    requires TableOk(sessions, next, issued) && i < |sessions|
    ensures TableOk(sessions[i := sessions[i].(isDomain := true)], next, issued)
  {
    var n := sessions[i := sessions[i].(isDomain := true)];
    forall j | 0 <= j < |n| ensures ObjectsExact(n[j]) && Recorded(n[j], issued) {
      assert ObjectsExact(sessions[j]) && Recorded(sessions[j], issued);
    }
  }

  /** A request to a live session that names an object handed out under its id reaches that object. */
  lemma RouteReaches(sessions: seq<Session>, next: u32, issued: Issued, id: u32, object_: u32)
    requires TableOk(sessions, next, issued) && Live(sessions, id) && (id, object_) in issued
    ensures Route(sessions[IndexOf(sessions, id)], object_) == Some(issued[(id, object_)])
  {
    var s := sessions[IndexOf(sessions, id)];
    assert ObjectsExact(s) && Recorded(s, issued);
    assert object_ in s.objects;
  }

  // ── Handles in a service's output ──────────────────────────────────────

  /** What a service may ask of the manager while it answers: to register a service, to connect to one by name, or to make a session. */
  datatype Callback = Registered(name: string, service: Service) | Connected(name: string) | Made(service: Service)

  /** A service's answer to a command, with what it asked of the manager meanwhile, in order. */
  datatype Answer = Answer(handled: bool, out: seq<Byte>, calls: seq<Callback>)

  const PSEUDO_HANDLES: u32 := 0xE000_0000

  /** What becomes of the output's first word: it stays, is dropped, is a handle, or is a domain object's session. */
  datatype Extraction = Keep | Drop | AsHandle(handle: u32) | AsObject(service: Service)

  /** A word that is a handle: handles are looked for only in long enough output, with a place to put them. */
  function Extract(out: seq<Byte>, slot: Slot, isDomain: bool, sessions: seq<Session>): Extraction {
    if |out| < 4 || (slot.NoSlot? && !isDomain) then Keep
    else
      var w := U32At(out, 0);
      if w == 0 then Keep
      else if w >= PSEUDO_HANDLES then Drop
      else if !isDomain then AsHandle(w)
      else if ServiceOf(sessions, w).Some? then AsObject(ServiceOf(sessions, w).value)
      else Keep
  }

  function StripColon(name: string): string {
    if name != "" && name[|name| - 1] == ':' then name[..|name| - 1] else name
  }

  /** The commands whose output is expected to begin with a handle. */
  function HandleSlot(name: string, cmd: u32, serviceName: string): Slot {
    if name == "sm" && cmd == 1 then MoveSlot
    else if (name == "apm" || name == "apm:sys" || name == "appletOE" || name == "appletAE") && cmd == 0 then MoveSlot
    else if name == "hid" && cmd <= 1 then MoveSlot
    else if cmd <= 1000 && serviceName == "HidAppletResource" then CopySlot
    else if cmd <= 1000 && serviceName == "appletProxy" then MoveSlot
    else NoSlot
  }

  const LEAST_BUFFER: nat := 0x100

  /** The services' output fits the response buffer. */
  ghost predicate Fits(serve: (Service, Request) -> Answer, capacity: nat) {
    forall svc, req :: |serve(svc, req).out| + 80 <= capacity
  }

  /** How many sessions the calls open. */
  function Opened(calls: seq<Callback>): nat {
    if calls == [] then 0
    else Opened(calls[..|calls| - 1]) + if calls[|calls| - 1].Registered? then 0 else 1
  }

  /** There are session ids left for the sessions that services open. */
  ghost predicate Room(serve: (Service, Request) -> Answer, next: u32) {
    forall svc, req :: next + Opened(serve(svc, req).calls) < LAST_ID
  }

  /** What a client reads: the output unless it was taken for a handle, and the handle or what was in its place. */
  function Expected(token: u32, slot: Slot, stale: u32, out: seq<Byte>, ex: Extraction, objects: nat): Reply {
    Reply(token, 0, if slot.CopySlot? then 1 else 0, if slot.MoveSlot? then 1 else 0,
          if slot.NoSlot? then 0 else if ex.AsHandle? then ex.handle else stale, if ex.Keep? then out else [], objects)
  }

  /** The manager's own answers: the domain id 1, a pointer buffer of size 0, or nothing. */
  function ControlOutput(cmd: u32): seq<Byte> {
    if cmd == 0 then Bytes4(1) else if cmd == 3 then [0, 0] else []
  }

  /** Data stands behind the slot, and in the slot a handle. */
  ghost predicate BuiltFrom(s: seq<Byte>, slot: Slot, n: nat, data: seq<Byte>, handle: u32)
    requires n + 80 <= |s|
  {
    s[8 + SlotSize(slot)..8 + SlotSize(slot) + n] == data && (!slot.NoSlot? ==> U32At(s, 12) == handle)
  }

  lemma WrittenBehind(s: seq<Byte>, slot: Slot, out: seq<Byte>)
    requires |out| + 80 <= |s|
    ensures BuiltFrom(Over(s, 8 + SlotSize(slot), out), slot, |out|, out, U32At(s, 12))
  {
  }

  /** The name service's first command answers with a copy of its own session handle. */
  predicate Initializes(s: Session, req: Request) {
    StripColon(s.name) == "sm" && req.cmd == 0
  }

  /** Control requests and domain sessions have no place for a handle, except for that first command. */
  function SlotFor(s: Session, req: Request): Slot {
    if Initializes(s, req) then CopySlot
    else if req.type_ == 5 || s.isDomain then NoSlot
    else HandleSlot(StripColon(s.name), req.cmd, if s.service.Some? then s.service.value.name else "")
  }

  /** What is in the place of the handle before the service answers. */
  function Stale(s: Session, req: Request, id: u32, response: seq<Byte>): u32 {
    if Initializes(s, req) then id else U32At(response, 12)
  }

  lemma StaleIs(s: Session, req: Request, id: u32, response: seq<Byte>)
    requires |response| >= 16
    ensures U32At(if Initializes(s, req) then Over(response, 12, Bytes4(id)) else response, 12) == Stale(s, req, id, response)
  {
    hide U32At, Bytes4, Initializes;
    WordReads(response[..12], id, response[16..]);
    assert |response[..12]| == 12;
  }

  /** A handle is taken only where there is a slot for it, an object only in a domain. */
  lemma ExtractPlaces(out: seq<Byte>, slot: Slot, isDomain: bool, sessions: seq<Session>)
    ensures var ex := Extract(out, slot, isDomain, sessions);
            (ex.AsHandle? ==> !isDomain && !slot.NoSlot?) && (ex.AsObject? ==> isDomain)
  {
  }

  lemma NothingBehind(s: seq<Byte>, slot: Slot, n: nat, data: seq<Byte>, handle: u32)
    requires n + 80 <= |s| && BuiltFrom(s, slot, n, data, handle)
    ensures BuiltFrom(s, slot, 0, [], handle)
  {
  }

  lemma HandlePlaced(s: seq<Byte>, slot: Slot, handle: u32)
    requires 80 <= |s|
    ensures BuiltFrom(Over(s, 12, Bytes4(handle)), slot, 0, [], handle)
  {
    hide U32At, Bytes4;
    WordReads(s[..12], handle, s[16..]);
    assert |s[..12]| == 12;
  }

  lemma PayloadLength(token: u32, objects: Objects)
    ensures |Payload(token, [], objects)| <= 64
  {
  }

  /** The service a command of a session with a service goes to. */
  function TargetOf(s: Session, object_: u32): (svc: Service)
    requires s.service.Some?
    ensures Route(s, object_) == Some(svc)
  {
    Route(s, object_).value
  }

  /** The word in the place of the handle matters only where there is a slot. */
  lemma ReadsSame(slot: Slot, word: u32, handle: u32, pad: seq<Byte>, token: u32, data: seq<Byte>, objects: Objects)
    requires |pad| == 8 && (!slot.NoSlot? ==> word == handle)
    ensures var s := Response(slot, word, pad, token, data, objects);
            && ReadResponse(s, objects.Some?) ==
               Some(Reply(token, 0, if slot.CopySlot? then 1 else 0, if slot.MoveSlot? then 1 else 0,
                          if slot.NoSlot? then 0 else handle, data, if objects.Some? then |objects.value| else 0))
            && (objects.Some? ==> forall k :: 0 <= k < |objects.value| ==> U32At(s, 48 + |data| + 4 * k) == objects.value[k])
  {
    hide ReadResponse, U32At, Response;
    ResponseReads(slot, word, pad, token, data, objects);
    if objects.Some? {
      forall k | 0 <= k < |objects.value|
        ensures U32At(Response(slot, word, pad, token, data, objects), 48 + |data| + 4 * k) == objects.value[k]
      {
        ObjectsRead(slot, word, pad, token, data, objects, k);
      }
    }
  }

  /** The service of a name, with or without a trailing colon. */
  function ServiceNamed(services: map<string, Service>, name: string): Option<Service> {
    if name in services then Some(services[name])
    else if name + ":" in services then Some(services[name + ":"]) else None
  }

  // ── What a request does to the table ───────────────────────────────────

  /** The manager's state: services by name, live sessions, the next session id, and all objects ever issued. */
  datatype Table = Table(services: map<string, Service>, sessions: seq<Session>, next: u32, issued: Issued)

  /** The table with a session under the next id. */
  function WithSession(t: Table, name: string, service: Option<Service>, owns: bool): Table
    requires t.next < LAST_ID
  {
    t.(sessions := t.sessions + [Session(t.next, name, service, false, owns, 1, map[])], next := t.next + 1)
  }

  /** What a call does to the table: a session opened by name may be without service, and does not own it. */
  function Called(t: Table, c: Callback): Table
    requires t.next < LAST_ID || c.Registered?
  {
    match c
    case Registered(name, service) => t.(services := t.services[name := service])
    case Connected(name) => WithSession(t, name, ServiceNamed(t.services, name), false)
    case Made(service) => WithSession(t, "(anonymous)", Some(service), true)
  }

  function AfterCalls(t: Table, calls: seq<Callback>): (u: Table)
    requires t.next + Opened(calls) < LAST_ID
    ensures u.next == t.next + Opened(calls) && t.sessions <= u.sessions && u.issued == t.issued
  {
    if calls == [] then t else Called(AfterCalls(t, calls[..|calls| - 1]), calls[|calls| - 1])
  }

  /** The table without a session. */
  function Without(sessions: seq<Session>, id: u32): seq<Session> {
    var i := IndexOf(sessions, id);
    if i < |sessions| then sessions[..i] + sessions[i + 1..] else sessions
  }

  /** A command makes its target's calls, and turns a handle in a domain's output into an object. */
  function Commanded(t: Table, i: nat, slot: Slot, answer: Answer): Table
    requires i < |t.sessions| && t.sessions[i].next < LAST_ID && t.next + Opened(answer.calls) < LAST_ID
  {
    var s, grown := t.sessions[i], AfterCalls(t, answer.calls);
    var ex := Extract(answer.out, slot, s.isDomain, grown.sessions);
    if answer.handled && ex.AsObject? then
      grown.(sessions := grown.sessions[i := WithObject(s, ex.service)], issued := t.issued[(s.id, s.next) := ex.service])
    else grown
  }

  /** A request closes its session, makes it a domain, is a command, or changes nothing. */
  function Requested(t: Table, id: u32, data: seq<Byte>, size: nat, serve: (Service, Request) -> Answer): Table
    requires size <= |data| && (forall k :: 0 <= k < |t.sessions| ==> t.sessions[k].next < LAST_ID)
    requires Room(serve, t.next)
  {
    var i := IndexOf(t.sessions, id);
    if i == |t.sessions| || size < 8 then t
    else
      var s := t.sessions[i];
      var req := ParseRequest(data, size, s.isDomain);
      if req.type_ == 2 then t.(sessions := Without(t.sessions, id))
      else if s.service.None? then t
      else if req.type_ == 5 then
        if req.cmd == 0 then t.(sessions := t.sessions[i := s.(isDomain := true)]) else t
      else Commanded(t, i, SlotFor(s, req), serve(TargetOf(s, req.object_), req))
  }

  lemma {:induction false} OpenedGrows(calls: seq<Callback>, k: nat)
    requires k < |calls|
    ensures Opened(calls[..k + 1]) == Opened(calls[..k]) + (if calls[k].Registered? then 0 else 1) <= Opened(calls)
    decreases |calls|
  {
    if k == |calls| - 1 {
      assert calls[..k + 1] == calls;
    } else {
      var init := calls[..|calls| - 1];
      OpenedGrows(init, k);
      assert init[..k + 1] == calls[..k + 1] && init[..k] == calls[..k];
    }
  }

  lemma WithoutOk(sessions: seq<Session>, next: u32, issued: Issued, id: u32)
    requires TableOk(sessions, next, issued)
    ensures TableOk(Without(sessions, id), next, issued) && !Live(Without(sessions, id), id)
  {
    hide TableOk;
    var i := IndexOf(sessions, id);
    if i < |sessions| {
      RemovedOk(sessions, next, issued, i);
    }
  }

  // ── The manager ────────────────────────────────────────────────────────

  class Manager {
    var services: map<string, Service>
    var sessions: seq<Session>
    var nextSession: u32
    ghost var issued: Issued

    ghost predicate Valid()
      reads this
    {
      TableOk(sessions, nextSession, issued)
    }

    ghost function View(): Table
      reads this
    {
      Table(services, sessions, nextSession, issued)
    }

    constructor ()
      ensures Valid() && sessions == [] && nextSession == FIRST_SESSION && issued == map[]
    {
      services, sessions, nextSession, issued := map[], [], FIRST_SESSION, map[];
    }

    method RegisterService(name: string, service: Service)
      modifies this`services
      ensures services == old(services)[name := service]
    {
      services := services[name := service];
    }

    /** A new session takes the next id, which was never used before. */
    method Add(name: string, service: Option<Service>, owns: bool) returns (id: u32)
      requires Valid() && nextSession < LAST_ID
      modifies this`sessions, this`nextSession
      ensures Valid() && id == old(nextSession) && nextSession == id + 1 && !Live(old(sessions), id)
      ensures sessions == old(sessions) + [Session(id, name, service, false, owns, 1, map[])]
    {
      id := nextSession;
      var s := Session(id, name, service, false, owns, 1, map[]);
      AddedOk(sessions, nextSession, issued, s);
      sessions, nextSession := sessions + [s], nextSession + 1;
    }

    /** Connects by name, with or without a trailing colon; an unknown name gives a session without service. */
    method Connect(name: string) returns (id: u32)
      requires Valid() && nextSession < LAST_ID
      modifies this`sessions, this`nextSession
      ensures Valid() && id == old(nextSession) && nextSession == id + 1
      ensures sessions == old(sessions) + [Session(id, name, ServiceNamed(services, name), false, false, 1, map[])]
    {
      hide TableOk;
      id := Add(name, ServiceNamed(services, name), false);
    }

    method CreateSession(service: Service) returns (id: u32)
      requires Valid() && nextSession < LAST_ID
      modifies this`sessions, this`nextSession
      ensures Valid() && id == old(nextSession) && nextSession == id + 1
      ensures sessions == old(sessions) + [Session(id, "(anonymous)", Some(service), false, true, 1, map[])]
    {
      hide TableOk;
      id := Add("(anonymous)", Some(service), true);
    }

    /** A closed session is gone for good: ids are not handed out again. */
    method CloseSession(id: u32)
      requires Valid()
      modifies this`sessions
      ensures Valid() && !Live(sessions, id)
      ensures sessions == Without(old(sessions), id)
    {
      hide TableOk;
      var i := Find(id);
      WithoutOk(sessions, nextSession, issued, id);
      if i < |sessions| {
        sessions := sessions[..i] + sessions[i + 1..];
      }
    }

    /** The position of a session in the table, or the table's length. */
    method Find(id: u32) returns (i: nat)
      ensures i == IndexOf(sessions, id)
    {
      i := 0;
      assert sessions[0..] == sessions;
      while i < |sessions|
        invariant i <= |sessions| && IndexOf(sessions, id) == i + IndexOf(sessions[i..], id)
      {
        if sessions[i].id == id {
          return;
        }
        assert sessions[i..][1..] == sessions[i + 1..];
        i := i + 1;
      }
    }

    /** Turns a session into a domain; its objects stay. */
    method ConvertToDomain(i: nat)
      requires Valid() && i < |sessions|
      modifies this`sessions
      ensures Valid() && sessions == old(sessions)[i := old(sessions)[i].(isDomain := true)]
    {
      DomainOk(sessions, nextSession, issued, i);
      sessions := sessions[i := sessions[i].(isDomain := true)];
    }

    /** Hands out the next object id of a domain session. */
    method IssueObject(i: nat, service: Service) returns (object_: u32)
      requires Valid() && i < |sessions| && sessions[i].isDomain && sessions[i].service.Some? && sessions[i].next < LAST_ID
      modifies this`sessions, this`issued
      ensures Valid() && object_ == old(sessions)[i].next && (old(sessions)[i].id, object_) !in old(issued)
      ensures issued == old(issued)[(old(sessions)[i].id, object_) := service]
      ensures sessions == old(sessions)[i := WithObject(old(sessions)[i], service)]
    {
      IssuedOk(sessions, nextSession, issued, i, service);
      var s := sessions[i];
      object_ := s.next;
      sessions := sessions[i := WithObject(s, service)];
      issued := issued[(s.id, object_) := service];
    }

    /** The calls a service makes while it answers, in order. */
    method CallAll(calls: seq<Callback>)
      requires Valid() && nextSession + Opened(calls) < LAST_ID
      modifies this`services, this`sessions, this`nextSession
      ensures Valid() && View() == AfterCalls(old(View()), calls)
    {
      hide TableOk;
      ghost var before := View();
      assert calls[..0] == [];
      for k := 0 to |calls|
        invariant Valid() && before.next + Opened(calls[..k]) < LAST_ID
        invariant View() == AfterCalls(before, calls[..k])
      {
        OpenedGrows(calls, k);
        assert calls[..k + 1][..k] == calls[..k];
        match calls[k]
        case Registered(name, service) => RegisterService(name, service);
        case Connected(name) => var id := Connect(name);
        case Made(service) => var id := CreateSession(service);
      }
      assert calls[..|calls|] == calls;
    }

    /** Control requests are answered by the manager itself; the first makes the session a domain. */
    method HandleControl(i: nat, req: Request, response: array<Byte>, slot: Slot) returns (size: nat)
      requires Valid() && i < |sessions| && response.Length >= LEAST_BUFFER
      modifies this`sessions, response
      ensures Valid() && size <= response.Length
      ensures sessions == if req.cmd == 0 then old(sessions)[i := old(sessions)[i].(isDomain := true)] else old(sessions)
      ensures ReadResponse(response[..size], false) ==
              Some(Expected(req.token, slot, U32At(old(response[..]), 12), ControlOutput(req.cmd), Keep, 0))
    {
      hide Over, BuiltFrom, TableOk, U32At, ReadResponse, Bytes4;
      ghost var before := response[..];
      var out := ControlOutput(req.cmd);
      if req.cmd == 0 {
        ConvertToDomain(i);
      }
      Put(response, 8 + SlotSize(slot), out);
      WrittenBehind(before, slot, out);
      size := Build(response, slot, |out|, req.token, None, out, U32At(before, 12));
    }

    /** Builds a response around output that stands behind the slot. */
    method Build(response: array<Byte>, slot: Slot, n: nat, token: u32, objects: Objects, ghost data: seq<Byte>, ghost handle: u32)
      returns (size: nat)
      requires n + 80 <= response.Length && BuiltFrom(response[..], slot, n, data, handle)
      modifies response
      ensures size <= response.Length
      ensures ReadResponse(response[..size], objects.Some?) ==
              Some(Reply(token, 0, if slot.CopySlot? then 1 else 0, if slot.MoveSlot? then 1 else 0,
                         if slot.NoSlot? then 0 else handle, data, if objects.Some? then |objects.value| else 0))
      ensures objects.Some? ==> 48 + |data| + 4 * |objects.value| <= size
      ensures objects.Some? ==> forall k :: 0 <= k < |objects.value| ==> U32At(response[..size], 48 + |data| + 4 * k) == objects.value[k]
    {
      hide ReadResponse, U32At, Response, Payload;
      ghost var before := response[..];
      PayloadLength(token, objects);
      size := BuildResponse(response, slot, n, token, objects);
      ghost var pad := before[8..16];
      assert before[8..16] == old(response[8..16]);
      assert before[8 + SlotSize(slot)..8 + SlotSize(slot) + n] == old(response[8 + SlotSize(slot)..8 + SlotSize(slot) + n]) == data;
      PayloadSize(token, data, objects);
      ReadsSame(slot, U32At(before, 12), handle, pad, token, data, objects);
    }

    /** A command goes to its target; what the target leaves behind the slot becomes the response. */
    method HandleCommand(i: nat, req: Request, response: array<Byte>, slot: Slot, serve: (Service, Request) -> Answer)
      returns (size: nat, ghost answer: Answer)
      requires Valid() && i < |sessions| && sessions[i].service.Some? && response.Length >= LEAST_BUFFER
      requires Fits(serve, response.Length) && Room(serve, nextSession) && sessions[i].next < LAST_ID
      modifies this, response
      ensures Valid() && size <= response.Length
      ensures answer == serve(TargetOf(old(sessions)[i], req.object_), req)
      ensures View() == Commanded(old(View()), i, slot, answer)
      ensures answer.handled ==>
                var s := old(sessions)[i];
                var ex := Extract(answer.out, slot, s.isDomain, AfterCalls(old(View()), answer.calls).sessions);
                && ReadResponse(response[..size], s.isDomain) ==
                   Some(Expected(req.token, slot, U32At(old(response[..]), 12), answer.out, ex, if ex.AsObject? then 1 else 0))
                && (ex.AsObject? ==> (s.id, s.next) !in old(issued) && U32At(response[..size], 48) == s.next)
    {
      hide Over, BuiltFrom, TableOk, U32At, ReadResponse, Bytes4, Extract, Route;
      var target := TargetOf(sessions[i], req.object_);
      answer := serve(target, req);
      var reply := serve(target, req);
      ghost var before := response[..];
      CallAll(reply.calls);
      Put(response, 8 + SlotSize(slot), reply.out);
      WrittenBehind(before, slot, reply.out);
      var isDomain := sessions[i].isDomain;
      if !reply.handled {
        Put(response, 0, Bytes4(0) + Bytes4(HeaderWord(0, !slot.NoSlot?)));
        size := 8 + SlotSize(slot);
        return;
      }
      var ex := Extract(reply.out, slot, isDomain, sessions);
      ExtractPlaces(reply.out, slot, isDomain, sessions);
      var n := |reply.out|;
      var objects: Objects := if isDomain then Some([]) else None;
      ghost var data, handle := reply.out, U32At(before, 12);
      if !ex.Keep? {
        NothingBehind(response[..], slot, n, data, handle);
        n, data := 0, [];
      }
      if ex.AsHandle? {
        HandlePlaced(response[..], slot, ex.handle);
        handle := ex.handle;
        Put(response, 12, Bytes4(ex.handle));
      } else if ex.AsObject? {
        var o := IssueObject(i, ex.service);
        objects := Some([o]);
      }
      size := Build(response, slot, n, req.token, objects, data, handle);
      if ex.AsObject? {
        assert U32At(response[..size], 48 + |data| + 4 * 0) == objects.value[0];
      }
    }

    /**
     A request from its bytes to the bytes of the response. An unknown session
     or a message too short for a header is refused and nothing changes.
     */
    method HandleRequest(id: u32, data: seq<Byte>, size: nat, response: array<Byte>, serve: (Service, Request) -> Answer)
      returns (code: u32, responseSize: nat, ghost answer: Option<Answer>)
      requires Valid() && size <= |data| && response.Length >= LEAST_BUFFER && Fits(serve, response.Length) && Room(serve, nextSession)
      requires forall k :: 0 <= k < |sessions| ==> sessions[k].next < LAST_ID
      modifies this, response
      ensures Valid() && responseSize <= response.Length
      ensures View() == Requested(old(View()), id, data, size, serve)
      ensures code == if !Live(old(sessions), id) || size < 8 then 0xFFFF else 0
      ensures code != 0 ==> response[..] == old(response[..])
      ensures code == 0 ==>
                var s := old(sessions)[IndexOf(old(sessions), id)]; var req := ParseRequest(data, size, s.isDomain);
                && (req.type_ == 2 ==> responseSize == 8 && answer == None)
                && (req.type_ == 5 && s.service.Some? ==>
                      ReadResponse(response[..responseSize], false) ==
                      Some(Expected(req.token, SlotFor(s, req), Stale(s, req, id, old(response[..])), ControlOutput(req.cmd), Keep, 0)))
                && (req.type_ != 2 && req.type_ != 5 && s.service.Some? ==>
                      && answer == Some(serve(TargetOf(s, req.object_), req))
                      && (answer.value.handled ==>
                            var ex := Extract(answer.value.out, SlotFor(s, req), s.isDomain,
                                              AfterCalls(old(View()), answer.value.calls).sessions);
                            && ReadResponse(response[..responseSize], s.isDomain) ==
                               Some(Expected(req.token, SlotFor(s, req), Stale(s, req, id, old(response[..])), answer.value.out, ex,
                                             if ex.AsObject? then 1 else 0))
                            && (ex.AsObject? ==> (id, s.next) !in old(issued) && U32At(response[..responseSize], 48) == s.next)))
    {
      hide Over, TableOk, U32At, ReadResponse, Bytes4, Extract, Route, ParseRequest, HandleSlot, Fits, Room, Expected;
      code, responseSize, answer := 0, 0, None;
      var i := Find(id);
      if i == |sessions| || size < 8 {
        return 0xFFFF, 0, None;
      }
      var s := sessions[i];
      var req := ParseRequest(data, size, s.isDomain);
      if req.type_ == 2 {
        CloseSession(id);
        Put(response, 0, Bytes4(0) + Bytes4(0));
        responseSize := 8;
        return;
      }
      var slot := SlotFor(s, req);
      ghost var before := response[..];
      StaleIs(s, req, id, before);
      if Initializes(s, req) {
        Put(response, 12, Bytes4(id));
      }
      if s.service.None? {
        responseSize := 8 + SlotSize(slot);
        return;
      }
      if req.type_ == 5 {
        responseSize := HandleControl(i, req, response, slot);
      } else {
        ghost var given: Answer;
        responseSize, given := HandleCommand(i, req, response, slot, serve);
        answer := Some(given);
      }
    }
  }
}
