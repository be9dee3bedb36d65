/**
 The kernel event: Signal, Clear and Wait calls of any number of threads,
 interleaved at their accesses to the mutex, the flag and the condition
 variable.
 */
module KernelEvent {
  import opened Common

  /** The timeout of a Wait: zero, positive or negative nanoseconds. */
  datatype Timeout = Poll | Finite | Forever

  datatype Outcome = Success | TimedOut

  /** Where a thread stands in the call it is making. */
  datatype Place =
    | Idle
    | SignalLock | SignalSet | SignalUnlock | SignalNotify
    | ClearLock | ClearSet | ClearUnlock
    | WaitLock(timeout: Timeout) | WaitTest(timeout: Timeout)
    | Test(timeout: Timeout, expired: bool) | Sleep(timeout: Timeout) | Blocked(timeout: Timeout)
    | Relock(timeout: Timeout, expired: bool)
    | Return(timeout: Timeout, outcome: Outcome) | Done(timeout: Timeout, outcome: Outcome)

  /** The places between taking and releasing the mutex. */
  predicate Holding(p: Place) {
    p.SignalSet? || p.SignalUnlock? || p.ClearSet? || p.ClearUnlock? || p.WaitTest? || p.Test? || p.Sleep? || p.Return?
  }

  /** Between setting the flag and notify_all. */
  predicate Signalling(p: Place) {
    p.SignalUnlock? || p.SignalNotify?
  }

  datatype State = State(signaled: bool, mutex: Option<nat>, places: map<nat, Place>) {
    function At(t: nat): Place { if t in places then places[t] else Idle }
    function Move(t: nat, p: Place): State { this.(places := places[t := p]) }

    /** Taking the mutex, or staying put while another thread has it. */
    function Acquire(t: nat, p: Place): State {
      if mutex.None? then Move(t, p).(mutex := Some(t)) else this
    }

    function Release(t: nat, p: Place): State { Move(t, p).(mutex := None) }

    /** notify_all: every blocked thread goes on to take the mutex again. */
    function NotifyAll(): State {
      this.(places := map t | t in places ::
        if places[t].Blocked? then Relock(places[t].timeout, false) else places[t])
    }
  }

  /** A call begins, a thread takes its next step, or a blocked thread wakes without being notified. */
  datatype Event = BeginSignal(t: nat) | BeginClear(t: nat) | BeginWait(t: nat, timeout: Timeout)
    | Run(t: nat) | Spurious(t: nat) | Expire(t: nat)

  predicate Free(p: Place) { p.Idle? || p.Done? }

  function RunSignal(s: State, t: nat): State {
    match s.At(t)
    case SignalLock => s.Acquire(t, SignalSet)
    case SignalSet => s.Move(t, SignalUnlock).(signaled := true)
    case SignalUnlock => s.Release(t, SignalNotify)
    case SignalNotify => s.NotifyAll().Move(t, Idle)
    case _ => s
  }

  function RunClear(s: State, t: nat): State {
    match s.At(t)
    case ClearLock => s.Acquire(t, ClearSet)
    case ClearSet => s.Move(t, ClearUnlock).(signaled := false)
    case ClearUnlock => s.Release(t, Idle)
    case _ => s
  }

  function RunWait(s: State, t: nat): State {
    match s.At(t)
    case WaitLock(to) => s.Acquire(t, WaitTest(to))
    case WaitTest(to) =>
      s.Move(t, if s.signaled then Return(to, Success) else if to.Poll? then Return(to, TimedOut) else Test(to, false))
    case Test(to, expired) =>
      s.Move(t, if s.signaled then Return(to, Success) else if expired then Return(to, TimedOut) else Sleep(to))
    case Sleep(to) => s.Release(t, Blocked(to))
    case Relock(to, expired) => s.Acquire(t, Test(to, expired))
    case Return(to, outcome) => s.Release(t, Done(to, outcome))
    case _ => s
  }

  predicate InSignal(p: Place) { p.SignalLock? || p.SignalSet? || p.SignalUnlock? || p.SignalNotify? }
  predicate InClear(p: Place) { p.ClearLock? || p.ClearSet? || p.ClearUnlock? }

  function Advance(s: State, t: nat): State {
    if InSignal(s.At(t)) then RunSignal(s, t) else if InClear(s.At(t)) then RunClear(s, t) else RunWait(s, t)
  }

  /** The effect of an event; an event that is not possible changes nothing. */
  function Step(s: State, e: Event): State {
    match e
    case BeginSignal(t) => if Free(s.At(t)) then s.Move(t, SignalLock) else s
    case BeginClear(t) => if Free(s.At(t)) then s.Move(t, ClearLock) else s
    case BeginWait(t, to) => if Free(s.At(t)) then s.Move(t, WaitLock(to)) else s
    case Run(t) => Advance(s, t)
    case Spurious(t) => if s.At(t).Blocked? then s.Move(t, Relock(s.At(t).timeout, false)) else s
    case Expire(t) => if s.At(t) == Blocked(Finite) then s.Move(t, Relock(Finite, true)) else s
  }

  const INITIAL := State(false, None, map[])

  /** The state after a list of events. */
  function After(events: seq<Event>): State {
    if events == [] then INITIAL else Step(After(events[..|events| - 1]), events[|events| - 1])
  }

  // ── Invariants ─────────────────────────────────────────────────────────

  /** What a thread's place says about the flag, given that the thread holds the mutex there. */
  predicate FlagFits(p: Place, signaled: bool) {
    match p
    case SignalUnlock => signaled
    case ClearUnlock => !signaled
    case Sleep(_) => !signaled
    case Return(_, outcome) => signaled <==> outcome == Success
    case _ => true
  }

  /** Only a finite timeout expires, a poll never blocks and an endless wait never times out. */
  predicate TimeoutFits(p: Place) {
    match p
    case Test(to, expired) => !to.Poll? && (expired ==> to.Finite?)
    case Sleep(to) => !to.Poll?
    case Blocked(to) => !to.Poll?
    case Relock(to, expired) => !to.Poll? && (expired ==> to.Finite?)
    case Return(to, outcome) => outcome == TimedOut ==> !to.Forever?
    case Done(to, outcome) => outcome == TimedOut ==> !to.Forever?
    case _ => true
  }

  /** The mutex belongs to the one thread at a place that holds it. */
  ghost predicate Exclusive(s: State) {
    forall t: nat :: Holding(s.At(t)) <==> s.mutex == Some(t)
  }

  ghost predicate PlacesFit(s: State) {
    forall t: nat :: FlagFits(s.At(t), s.signaled) && TimeoutFits(s.At(t))
  }

  /** No thread stays blocked on a set flag unless a notification is still to come. */
  ghost predicate NothingLost(s: State) {
    s.signaled && (exists t: nat :: s.At(t).Blocked?) ==> exists u: nat :: Signalling(s.At(u))
  }

  ghost predicate Inv(s: State) {
    Exclusive(s) && PlacesFit(s) && NothingLost(s)
  }

  /** Moving a thread between places that do not touch the mutex or the flag. */
  lemma MoveInv(s: State, t: nat, p: Place)
    requires Inv(s) && !Holding(s.At(t)) && !Holding(p) && !p.Blocked? && !Signalling(s.At(t)) && TimeoutFits(p)
    requires FlagFits(p, s.signaled)
    ensures Inv(s.Move(t, p))
  {
    var n := s.Move(t, p);
    assert forall u: nat :: u != t ==> n.At(u) == s.At(u);
  }

  lemma AcquireInv(s: State, t: nat, p: Place)
    requires Inv(s) && !Holding(s.At(t)) && Holding(p) && TimeoutFits(p) && FlagFits(p, s.signaled) && !Signalling(s.At(t))
    ensures Inv(s.Acquire(t, p))
  {
    var n := s.Acquire(t, p);
    assert forall u: nat :: u != t ==> n.At(u) == s.At(u);
  }

  /** The holder of the mutex moves on, keeping it, and may set the flag to fit its new place. */
  lemma HolderInv(s: State, t: nat, p: Place, signaled: bool)
    requires Inv(s) && Holding(s.At(t)) && Holding(p) && TimeoutFits(p) && FlagFits(p, signaled)
    requires !Signalling(s.At(t)) && (signaled && !s.signaled ==> Signalling(p))
    ensures Inv(s.Move(t, p).(signaled := signaled))
  {
    var n := s.Move(t, p).(signaled := signaled);
    assert forall u: nat :: u != t ==> n.At(u) == s.At(u) && !Holding(s.At(u));
    if n.signaled && exists u: nat :: n.At(u).Blocked? {
      if s.signaled {
        var u: nat :| Signalling(s.At(u));
        assert Signalling(n.At(u));
      } else {
        assert Signalling(n.At(t));
      }
    }
  }

  lemma ReleaseInv(s: State, t: nat, p: Place)
    requires Inv(s) && Holding(s.At(t)) && !Holding(p) && TimeoutFits(p) && FlagFits(p, s.signaled)
    requires Signalling(s.At(t)) ==> Signalling(p)
    requires p.Blocked? ==> !s.signaled
    ensures Inv(s.Release(t, p))
  {
    var n := s.Release(t, p);
    assert forall u: nat :: u != t ==> n.At(u) == s.At(u) && !Holding(s.At(u));
    if n.signaled && exists u: nat :: n.At(u).Blocked? {
      var u: nat :| n.At(u).Blocked?;
      assert s.At(u).Blocked?;
      var v: nat :| Signalling(s.At(v));
      assert Signalling(n.At(v));
    }
  }

  /** After notify_all no thread is blocked. */
  lemma NotifyInv(s: State, t: nat)
    requires Inv(s) && s.At(t).SignalNotify?
    ensures Inv(s.NotifyAll().Move(t, Idle))
    ensures forall u: nat :: !s.NotifyAll().Move(t, Idle).At(u).Blocked?
  {
    var n := s.NotifyAll().Move(t, Idle);
    forall u: nat
      ensures !n.At(u).Blocked? && (Holding(n.At(u)) <==> Holding(s.At(u)))
      ensures FlagFits(n.At(u), n.signaled) && TimeoutFits(n.At(u))
    {
      assert FlagFits(s.At(u), s.signaled) && TimeoutFits(s.At(u));
    }
  }

  lemma AdvanceInv(s: State, t: nat)
    requires Inv(s)
    ensures Inv(Advance(s, t))
  {
    hide Inv;
    assert Fits(s, t) by { FitsAt(s, t); }
    match s.At(t)
    case SignalLock => AcquireInv(s, t, SignalSet);
    case SignalSet => HolderInv(s, t, SignalUnlock, true);
    case SignalUnlock => ReleaseInv(s, t, SignalNotify);
    case SignalNotify => NotifyInv(s, t);
    case ClearLock => AcquireInv(s, t, ClearSet);
    case ClearSet => HolderInv(s, t, ClearUnlock, false);
    case ClearUnlock => ReleaseInv(s, t, Idle);
    case WaitLock(to) => AcquireInv(s, t, WaitTest(to));
    case WaitTest(to) =>
      HolderInv(s, t, if s.signaled then Return(to, Success) else if to.Poll? then Return(to, TimedOut) else Test(to, false), s.signaled);
    case Test(to, expired) =>
      HolderInv(s, t, if s.signaled then Return(to, Success) else if expired then Return(to, TimedOut) else Sleep(to), s.signaled);
    case Sleep(to) => ReleaseInv(s, t, Blocked(to));
    case Relock(to, expired) => AcquireInv(s, t, Test(to, expired));
    case Return(to, outcome) => ReleaseInv(s, t, Done(to, outcome));
    case _ =>
  }

  predicate Fits(s: State, t: nat) {
    FlagFits(s.At(t), s.signaled) && TimeoutFits(s.At(t))
  }

  lemma FitsAt(s: State, t: nat)
    requires Inv(s)
    ensures Fits(s, t)
  {
  }

  lemma StepInv(s: State, e: Event)
    requires Inv(s)
    ensures Inv(Step(s, e))
  {
    hide Inv, Advance;
    assert Fits(s, e.t) by { FitsAt(s, e.t); }
    match e
    case BeginSignal(t) => if Free(s.At(t)) { MoveInv(s, t, SignalLock); }
    case BeginClear(t) => if Free(s.At(t)) { MoveInv(s, t, ClearLock); }
    case BeginWait(t, to) => if Free(s.At(t)) { MoveInv(s, t, WaitLock(to)); }
    case Run(t) => AdvanceInv(s, t);
    case Spurious(t) => if s.At(t).Blocked? { MoveInv(s, t, Relock(s.At(t).timeout, false)); }
    case Expire(t) => if s.At(t) == Blocked(Finite) { MoveInv(s, t, Relock(Finite, true)); }
  }

  lemma {:induction false} Reachable(events: seq<Event>)
    ensures Inv(After(events))
  {
    if events != [] {
      hide Inv;
      Reachable(events[..|events| - 1]);
      StepInv(After(events[..|events| - 1]), events[|events| - 1]);
    }
  }

  // ── Properties of every run ────────────────────────────────────────────

  /**
   No lost wake-up: whenever a thread is blocked while the event is signaled,
   some signaller has set the flag and not yet called notify_all.
   */
  lemma NoLostWakeup(events: seq<Event>, t: nat)
    requires After(events).signaled && After(events).At(t).Blocked?
    ensures exists u: nat :: Signalling(After(events).At(u))
  {
    Reachable(events);
  }

  /** When a Signal call ends, no thread is blocked. */
  lemma SignalWakesAll(events: seq<Event>, t: nat, u: nat)
    requires After(events).At(t).SignalNotify?
    ensures !After(events + [Run(t)]).At(u).Blocked?
  {
    Reachable(events);
    NotifyInv(After(events), t);
    AfterSnoc(events, Run(t));
  }

  /** At most one thread is between taking and releasing the mutex. */
  lemma MutualExclusion(events: seq<Event>, t: nat, u: nat)
    requires Holding(After(events).At(t)) && Holding(After(events).At(u))
    ensures t == u
  {
    Reachable(events);
  }

  lemma DoneComesFrom(s: State, e: Event, t: nat)
    requires Step(s, e).At(t).Done?
    ensures s.At(t) == Step(s, e).At(t) || s.At(t) == Return(Step(s, e).At(t).timeout, Step(s, e).At(t).outcome)
  {
  }

  /**
   The last check of a Wait call: after the first k events the thread is about to
   return the outcome, holding the mutex, with the flag as the outcome says.
   */
  ghost predicate Checked(s: State, t: nat, timeout: Timeout, outcome: Outcome) {
    s.At(t) == Return(timeout, outcome) && s.mutex == Some(t) && (s.signaled <==> outcome == Success)
  }

  /** The call of the thread ended with event k, and the thread did nothing since. */
  ghost predicate EndedAt(events: seq<Event>, t: nat, k: nat) {
    forall j :: k < j <= |events| ==> After(events[..j]).At(t) == After(events).At(t)
  }

  /**
   A Wait that returned Success saw the flag set at its own last check, under the
   mutex, one that timed out saw it clear there, and an endless Wait never times
   out. Nothing happened to the thread between that check's return and the end.
   */
  lemma {:induction false} OutcomeObserved(events: seq<Event>, t: nat)
    requires After(events).At(t).Done?
    ensures var p := After(events).At(t);
            exists k: nat :: k < |events| && Checked(After(events[..k]), t, p.timeout, p.outcome) && EndedAt(events, t, k)
    ensures After(events).At(t).timeout.Forever? ==> After(events).At(t).outcome == Success
  {
    hide After, Step, Inv, Fits, Checked;
    EndedWait(events, t);
    var last := |events| - 1;
    var init := events[..last];
    var p := After(events).At(t);
    if After(init).At(t) == p {
      OutcomeObserved(init, t);
      var k: nat :| k < last && Checked(After(init[..k]), t, p.timeout, p.outcome) && EndedAt(init, t, k);
      assert init[..k] == events[..k];
      EndedLonger(events, t, k);
    } else {
      assert events[..|events|] == events;
      assert EndedAt(events, t, last);
    }
  }

  /** The last event of a run either ended the thread's call or left the thread where it was. */
  lemma EndedWait(events: seq<Event>, t: nat)
    requires After(events).At(t).Done?
    ensures var p := After(events).At(t); p.timeout.Forever? ==> p.outcome == Success
    ensures events != []
    ensures var p := After(events).At(t); var before := After(events[..|events| - 1]);
            before.At(t) == p || Checked(before, t, p.timeout, p.outcome)
  {
    hide Inv;
    Reachable(events);
    FitsAt(After(events), t);
    var init := events[..|events| - 1];
    Reachable(init);
    FitsAt(After(init), t);
    DoneComesFrom(After(init), events[|events| - 1], t);
    HolderIs(After(init), t);
  }

  lemma HolderIs(s: State, t: nat)
    requires Inv(s)
    ensures Holding(s.At(t)) ==> s.mutex == Some(t)
  {
  }

  lemma EndedLonger(events: seq<Event>, t: nat, k: nat)
    requires events != [] && EndedAt(events[..|events| - 1], t, k)
    requires After(events[..|events| - 1]).At(t) == After(events).At(t)
    ensures EndedAt(events, t, k)
  {
    hide After;
    var init := events[..|events| - 1];
    forall j | k < j <= |events| ensures After(events[..j]).At(t) == After(events).At(t) {
      if j < |events| {
        assert init[..j] == events[..j];
      } else {
        assert events[..j] == events;
      }
    }
  }

  /**
   Once the flag is set and the signallers are done, a waiting thread is not
   blocked, and left to run while the mutex is free its call returns Success.
   */
  lemma WaiterFinishes(events: seq<Event>, t: nat)
    requires var s := After(events); s.signaled && s.mutex.None? && forall u: nat :: !Signalling(s.At(u))
    requires var p := After(events).At(t); p.WaitLock? || p.Relock? || p.Blocked?
    ensures After(events + [Run(t), Run(t), Run(t)]).At(t) == Done(After(events).At(t).timeout, Success)
  {
    NotBlocked(events, t);
    ThreeSteps(After(events), t);
    hide After, Advance;
    var one := events + [Run(t)];
    var two := one + [Run(t)];
    AfterSnoc(events, Run(t));
    AfterSnoc(one, Run(t));
    AfterSnoc(two, Run(t));
    assert events + [Run(t), Run(t), Run(t)] == two + [Run(t)];
  }

  lemma NotBlocked(events: seq<Event>, t: nat)
    requires After(events).signaled && forall u: nat :: !Signalling(After(events).At(u))
    ensures !After(events).At(t).Blocked?
  {
    Reachable(events);
  }

  lemma ThreeSteps(s: State, t: nat)
    requires s.signaled && s.mutex.None? && (s.At(t).WaitLock? || s.At(t).Relock?)
    ensures Advance(Advance(Advance(s, t), t), t).At(t) == Done(s.At(t).timeout, Success)
  {
    var one := Advance(s, t);
    assert one.signaled && one.At(t) == if s.At(t).WaitLock? then WaitTest(s.At(t).timeout) else Test(s.At(t).timeout, s.At(t).expired);
    var two := Advance(one, t);
    assert two.At(t) == Return(s.At(t).timeout, Success);
  }

  lemma AfterSnoc(events: seq<Event>, e: Event)
    ensures After(events + [e]) == Step(After(events), e)
  {
    assert (events + [e])[..|events|] == events;
  }

  // ── The event object ───────────────────────────────────────────────────

  /** The event with its mutex and condition variable, driven one access at a time. */
  class KEvent {
    var signaled: bool
    var mtx: Option<nat>
    var places: map<nat, Place>

    ghost function View(): State
      reads this
    {
      State(signaled, mtx, places)
    }

    function At(t: nat): Place
      reads this
    {
      if t in places then places[t] else Idle
    }

    constructor ()
      ensures View() == INITIAL && Inv(View())
    {
      signaled, mtx, places := false, None, map[];
      new;
      Reachable([]);
    }

    /** One step of Signal: lock, set the flag, unlock, notify every blocked thread. */
    method SignalStep(t: nat)
      requires InSignal(At(t))
      modifies this
      ensures View() == RunSignal(old(View()), t)
    {
      match At(t)
      case SignalLock =>
        if mtx.None? {
          mtx, places := Some(t), places[t := SignalSet];
        }
      case SignalSet => signaled, places := true, places[t := SignalUnlock];
      case SignalUnlock => mtx, places := None, places[t := SignalNotify];
      case SignalNotify =>
        places := map u | u in places :: if places[u].Blocked? then Relock(places[u].timeout, false) else places[u];
        places := places[t := Idle];
    }

    method ClearStep(t: nat)
      requires InClear(At(t))
      modifies this
      ensures View() == RunClear(old(View()), t)
    {
      match At(t)
      case ClearLock =>
        if mtx.None? {
          mtx, places := Some(t), places[t := ClearSet];
        }
      case ClearSet => signaled, places := false, places[t := ClearUnlock];
      case ClearUnlock => mtx, places := None, places[t := Idle];
    }

    /** One step of Wait: lock, test, then test and block until the flag is set or the time is up. */
    method WaitStep(t: nat)
      requires !InSignal(At(t)) && !InClear(At(t))
      modifies this
      ensures View() == RunWait(old(View()), t)
    {
      match At(t)
      case WaitLock(to) =>
        if mtx.None? {
          mtx, places := Some(t), places[t := WaitTest(to)];
        }
      case WaitTest(to) =>
        if signaled {
          places := places[t := Return(to, Success)];
        } else if to.Poll? {
          places := places[t := Return(to, TimedOut)];
        } else {
          places := places[t := Test(to, false)];
        }
      case Test(to, expired) =>
        if signaled {
          places := places[t := Return(to, Success)];
        } else if expired {
          places := places[t := Return(to, TimedOut)];
        } else {
          places := places[t := Sleep(to)];
        }
      case Sleep(to) => mtx, places := None, places[t := Blocked(to)];
      case Relock(to, expired) =>
        if mtx.None? {
          mtx, places := Some(t), places[t := Test(to, expired)];
        }
      case Return(to, outcome) => mtx, places := None, places[t := Done(to, outcome)];
      case _ =>
    }

    /** Any event; the invariant holds before and after it. */
    method Perform(e: Event)
      requires Inv(View())
      modifies this
      ensures View() == Step(old(View()), e) && Inv(View())
    {
      StepInv(View(), e);
      hide Inv, RunSignal, RunClear, RunWait;
      var p := At(e.t);
      match e
      case BeginSignal(t) => if Free(p) { places := places[t := SignalLock]; }
      case BeginClear(t) => if Free(p) { places := places[t := ClearLock]; }
      case BeginWait(t, to) => if Free(p) { places := places[t := WaitLock(to)]; }
      case Run(t) =>
        if InSignal(p) {
          SignalStep(t);
        } else if InClear(p) {
          ClearStep(t);
        } else {
          WaitStep(t);
        }
      case Spurious(t) => if p.Blocked? { places := places[t := Relock(p.timeout, false)]; }
      case Expire(t) => if p == Blocked(Finite) { places := places[t := Relock(Finite, true)]; }
    }
  }
}
