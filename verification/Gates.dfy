/**
 * Two admission gates, the bcrypt gate (passwords.ts) and the Postgres query gate (pool.ts), as refinements of
 * one bounded FIFO semaphore.
 */
module Gates {
  import opened Basics

  /** Callers are numbered in order of arrival. */
  type Caller = nat

  /** `maxWaiters` is absent when the bound is not a number, which no comparison refuses. */
  datatype Limits = Limits(max: int, maxWaiters: Option<int>)

  datatype Sem = Sem(active: int, waiters: seq<Caller>)

  datatype Verdict = Granted | Queued | Refused

  function Acquire(l: Limits, s: Sem, id: Caller): (Sem, Verdict) {
    if s.active < l.max then (s.(active := s.active + 1), Granted)
    else if l.maxWaiters.Some? && |s.waiters| >= l.maxWaiters.value then (s, Refused)
    else (s.(waiters := s.waiters + [id]), Queued)
  }

  /** Gives the permit back; the longest waiter takes it over. */
  function Release(s: Sem): (Sem, Option<Caller>) {
    if s.waiters == [] then (s.(active := s.active - 1), None)
    else (Sem(s.active, s.waiters[1..]), Some(s.waiters[0]))
  }

  function Expire(s: Sem, id: Caller): Sem { s.(waiters := Without(s.waiters, id)) }

  // ---- What happens at an await -----------------------------------------------------------------------

  /** What the other callers of a gate do while one of them awaits something. */
  datatype Action = Enters(id: Caller) | Leaves | Expires(id: Caller)

  /** How a gated call ends. */
  datatype Ending = Succeeded | Threw | Saturated | BreakerOpen

  lemma AnotherHolder(holders: multiset<Caller>, me: Caller)
    requires |holders| > holders[me]
    ensures exists x :: x in holders && x != me
  {
    var others := holders[me := 0];
    assert holders == others + multiset{}[me := holders[me]];
    assert others != multiset{};
    var x :| x in others;
    assert x in holders && x != me;
  }

  /** The permit of one holder, given back or passed on. */
  ghost function Passed(holders: multiset<Caller>, holder: Caller, next: Option<Caller>): multiset<Caller> {
    match next
    case None => holders - multiset{holder}
    case Some(id) => holders - multiset{holder} + multiset{id}
  }

  lemma ShiftFacts(line: seq<Caller>)
    requires Distinct(line) && line != []
    ensures Distinct(line[1..]) && line[0] !in line[1..]
    ensures forall x :: x in line <==> x == line[0] || x in line[1..]
  {
    assert line == [line[0]] + line[1..];
  }

  // ---- passwords.ts -----------------------------------------------------------------------------------

  /** `timers` are the armed wait timeouts; admission disarms one.  `holders` says who has the permits. */
  class BcryptGate {
    const limits: Limits
    var bcryptActive: int
    var bcryptWaiters: seq<Caller>
    var timers: set<Caller>
    ghost var holders: multiset<Caller>

    ghost function View(): Sem
      reads this
    {
      Sem(bcryptActive, bcryptWaiters)
    }

    /** A timer is armed exactly for those who wait, and nobody waits while nobody holds a permit. */
    ghost predicate Valid()
      reads this
    {
      && Distinct(bcryptWaiters) && bcryptActive == |holders|
      && (forall id :: id in timers <==> id in bcryptWaiters)
      && limits.max >= 1 && limits.maxWaiters.Some?
    }

    constructor (maxConcurrent: nat, maxWaiters: nat)
      requires maxConcurrent >= 1
      ensures Valid() && View() == Sem(0, []) && limits == Limits(maxConcurrent, Some(maxWaiters))
    {
      limits := Limits(maxConcurrent, Some(maxWaiters));
      bcryptActive, bcryptWaiters, timers, holders := 0, [], {}, multiset{};
    }

    method Enter(id: Caller) returns (verdict: Verdict)
      requires Valid() && id !in bcryptWaiters
      modifies this
      ensures Valid() && (View(), verdict) == Acquire(limits, old(View()), id)
      ensures holders == if verdict == Granted then old(holders) + multiset{id} else old(holders)
    {
      if bcryptActive < limits.max {
        bcryptActive, holders := bcryptActive + 1, holders + multiset{id};
        return Granted;
      }
      if |bcryptWaiters| >= limits.maxWaiters.value {
        return Refused;
      }
      DistinctAppend(bcryptWaiters, id);
      timers := timers + {id};
      bcryptWaiters := bcryptWaiters + [id];
      return Queued;
    }

    /** The permit count drops and the next waiter, if any, raises it again; the clamp at zero never fires. */
    method Leave(ghost holder: Caller) returns (next: Option<Caller>)
      requires Valid() && holder in holders
      modifies this
      ensures Valid() && (View(), next) == Release(old(View()))
      ensures holders == Passed(old(holders), holder, next)
    {
      holders := holders - multiset{holder};
      bcryptActive := Max(0, bcryptActive - 1);
      next := None;
      if |bcryptWaiters| > 0 {
        ShiftFacts(bcryptWaiters);
        hide Distinct;
        next := Some(bcryptWaiters[0]);
        bcryptWaiters := bcryptWaiters[1..];
        timers := timers - {next.value};
        bcryptActive, holders := bcryptActive + 1, holders + multiset{next.value};
      }
    }

    /** The wait timer of id fires: only a caller that still waits can time out. */
    method WaitTimeout(id: Caller)
      requires Valid() && id in timers
      modifies this
      ensures Valid() && View() == Expire(old(View()), id) && id in old(bcryptWaiters) && id !in bcryptWaiters
      ensures holders == old(holders)
    {
      timers := timers - {id};
      var idx := IndexOf(bcryptWaiters, id);
      SpliceIsWithout(bcryptWaiters, id);
      WithoutMembers(bcryptWaiters, id);
      hide Distinct, Without, IndexOf;
      if idx >= 0 {
        bcryptWaiters := Splice(bcryptWaiters, idx);
      }
    }

    /** Caller `me` has a permit, or waits for one, or neither; it has one at most. */
    ghost predicate Stands(me: Caller, holds: bool, waits: bool)
      reads this
    {
      holders[me] == (if holds then 1 else 0) && (me in bcryptWaiters <==> waits)
    }

    /** One move of another caller, if it can take place; a waiting `me` may be handed a permit by it. */
    method OtherMoves(action: Action, me: Caller, holds: bool) returns (nowHolds: bool)
      requires Valid() && (Stands(me, holds, !holds))
      modifies this
      ensures Valid() && Stands(me, nowHolds, !nowHolds) && (holds ==> nowHolds)
    {
      nowHolds := holds;
      match action
      case Enters(x) =>
        if x != me && x !in bcryptWaiters {
          var _ := Enter(x);
        }
      case Leaves =>
        if bcryptActive > (if holds then 1 else 0) {
          AnotherHolder(holders, me);
          ghost var holder :| holder in holders && holder != me;
          if bcryptWaiters != [] { ShiftFacts(bcryptWaiters); }
          var next := Leave(holder);
          nowHolds := holds || next == Some(me);
        }
      case Expires(x) =>
        if x != me && x in timers {
          WithoutMembers(bcryptWaiters, x);
          WaitTimeout(x);
        }
    }

    method OthersMove(moves: seq<Action>, me: Caller, holds: bool) returns (nowHolds: bool)
      requires Valid() && Stands(me, holds, !holds)
      modifies this
      ensures Valid() && Stands(me, nowHolds, !nowHolds) && (holds ==> nowHolds)
    {
      nowHolds := holds;
      for i := 0 to |moves|
        invariant Valid() && Stands(me, nowHolds, !nowHolds) && (holds ==> nowHolds)
      {
        nowHolds := OtherMoves(moves[i], me, nowHolds);
      }
    }

    /**
     * withBcryptConcurrency from start to end, with any moves of others at its two awaits: however it ends, its
     * caller keeps neither a permit nor a place in the line, and with a free permit it does run.
     */
    method WithBcryptConcurrency(me: Caller, waiting: seq<Action>, succeeds: bool, running: seq<Action>)
      returns (ending: Ending)
      requires Valid() && Stands(me, false, false)
      modifies this
      ensures Valid() && Stands(me, false, false)
      ensures old(bcryptActive) < limits.max ==> ending != Saturated
      ensures ending == Saturated || ending == (if succeeds then Succeeded else Threw)
    {
      var verdict := Enter(me);
      if verdict == Refused {
        return Saturated;
      }
      var holds := verdict == Granted;
      if !holds {
        holds := OthersMove(waiting, me, false);
        if !holds {
          WaitTimeout(me);
          return Saturated;
        }
      }
      holds := OthersMove(running, me, true);
      ending := if succeeds then Succeeded else Threw;
      var _ := Leave(me);
    }
  }

  // ---- pool.ts ----------------------------------------------------------------------------------------

  /**
   * The waiting counter is kept apart from the waiter list; `settled` callers were admitted or timed out, and
   * `holders` says who has the permits.
   */
  class QueryGate {
    const limits: Limits
    var gateActive: int
    var gateWaiting: int
    var gateWaiters: seq<Caller>
    var settled: set<Caller>
    ghost var holders: multiset<Caller>

    ghost function View(): Sem
      reads this
    {
      Sem(gateActive, gateWaiters)
    }

    ghost predicate Valid()
      reads this
    {
      && gateWaiting == |gateWaiters| && Distinct(gateWaiters) && gateActive == |holders|
      && (forall id <- gateWaiters :: id !in settled)
    }

    constructor (limits: Limits)
      ensures Valid() && View() == Sem(0, []) && this.limits == limits && settled == {}
    {
      this.limits := limits;
      gateActive, gateWaiting, gateWaiters, settled, holders := 0, 0, [], {}, multiset{};
    }

    /** With a maximum of 0 the gate is off and admits everyone without counting. */
    method AcquireQueryGate(id: Caller) returns (verdict: Verdict)
      requires Valid() && id !in gateWaiters && id !in settled
      modifies this
      ensures Valid() && settled == old(settled)
      ensures limits.max == 0 ==> verdict == Granted && unchanged(this)
      ensures limits.max != 0 ==>
                && (View(), verdict) == Acquire(limits, old(View()), id)
                && holders == if verdict == Granted then old(holders) + multiset{id} else old(holders)
    {
      if limits.max == 0 {
        return Granted;
      }
      if gateActive < limits.max {
        gateActive, holders := gateActive + 1, holders + multiset{id};
        return Granted;
      }
      if limits.maxWaiters.Some? && gateWaiting >= limits.maxWaiters.value {
        return Refused;
      }
      gateWaiting := gateWaiting + 1;
      DistinctAppend(gateWaiters, id);
      gateWaiters := gateWaiters + [id];
      return Queued;
    }

    /** What a waiter leaves in the list: it takes the permit, unless its timer was first. */
    method Admit(id: Caller) returns (admitted: bool)
      requires Valid() && id !in gateWaiters
      modifies this
      ensures Valid() && gateWaiters == old(gateWaiters) && (admitted <==> id !in old(settled))
      ensures settled == old(settled) + {id}
      ensures gateActive == old(gateActive) + (if admitted then 1 else 0)
      ensures holders == if admitted then old(holders) + multiset{id} else old(holders)
    {
      if id in settled {
        return false;
      }
      settled := settled + {id};
      gateActive, holders := gateActive + 1, holders + multiset{id};
      return true;
    }

    method ReleaseQueryGate(ghost holder: Caller) returns (next: Option<Caller>)
      requires Valid() && (limits.max != 0 ==> holder in holders)
      modifies this
      ensures Valid()
      ensures limits.max == 0 ==> next == None && unchanged(this)
      ensures limits.max != 0 ==>
                && (View(), next) == Release(old(View()))
                && holders == Passed(old(holders), holder, next)
      ensures settled == old(settled) + (if next.Some? then {next.value} else {})
    {
      next := None;
      if limits.max == 0 {
        return;
      }
      gateActive, holders := gateActive - 1, holders - multiset{holder};
      if |gateWaiters| > 0 {
        ShiftFacts(gateWaiters);
        hide Distinct;
        var id := gateWaiters[0];
        gateWaiters := gateWaiters[1..];
        gateWaiting := gateWaiting - 1;
        var admitted := Admit(id);
        if admitted {
          next := Some(id);
        }
      }
    }

    /** A timer that fires after its caller was settled does nothing; otherwise the caller leaves the list. */
    method WaitTimeout(id: Caller)
      requires Valid() && (id in settled || id in gateWaiters)
      modifies this
      ensures Valid() && holders == old(holders)
      ensures id in old(settled) ==> unchanged(this)
      ensures id !in old(settled) ==>
                && View() == Expire(old(View()), id) && settled == old(settled) + {id} && id !in gateWaiters
    {
      if id in settled {
        return;
      }
      settled := settled + {id};
      var idx := IndexOf(gateWaiters, id);
      SpliceIsWithout(gateWaiters, id);
      WithoutMembers(gateWaiters, id);
      hide Distinct, Without, IndexOf;
      if idx != -1 {
        gateWaiters := Splice(gateWaiters, idx);
      }
      gateWaiting := gateWaiting - 1;
    }

    /** Caller `me` has a permit, which a gate that is off does not count, or waits for one, or neither. */
    ghost predicate Stands(me: Caller, holds: bool, waits: bool)
      reads this
    {
      holders[me] == (if holds && limits.max != 0 then 1 else 0) && (me in gateWaiters <==> waits)
    }

    /** One move of another caller, if it can take place; a waiting `me` may be handed a permit by it. */
    method OtherMoves(action: Action, me: Caller, holds: bool) returns (nowHolds: bool)
      requires Valid() && Stands(me, holds, !holds)
      modifies this
      ensures Valid() && Stands(me, nowHolds, !nowHolds) && (holds ==> nowHolds)
    {
      nowHolds := holds;
      match action
      case Enters(x) =>
        if x != me && x !in gateWaiters && x !in settled {
          var _ := AcquireQueryGate(x);
        }
      case Leaves =>
        if gateActive > (if holds then 1 else 0) {
          AnotherHolder(holders, me);
          ghost var holder :| holder in holders && holder != me;
          if gateWaiters != [] { ShiftFacts(gateWaiters); }
          var next := ReleaseQueryGate(holder);
          nowHolds := holds || next == Some(me);
        }
      case Expires(x) =>
        if x != me && (x in settled || x in gateWaiters) {
          WithoutMembers(gateWaiters, x);
          WaitTimeout(x);
        }
    }

    method OthersMove(moves: seq<Action>, me: Caller, holds: bool) returns (nowHolds: bool)
      requires Valid() && Stands(me, holds, !holds)
      modifies this
      ensures Valid() && Stands(me, nowHolds, !nowHolds) && (holds ==> nowHolds)
    {
      nowHolds := holds;
      for i := 0 to |moves|
        invariant Valid() && Stands(me, nowHolds, !nowHolds) && (holds ==> nowHolds)
      {
        nowHolds := OtherMoves(moves[i], me, nowHolds);
      }
    }

    /** What query and getClient await first: a permit, with any moves of others until it comes or the timer fires. */
    method AwaitPermit(me: Caller, waiting: seq<Action>) returns (holds: bool)
      requires Valid() && Stands(me, false, false) && me !in settled
      modifies this
      ensures Valid() && Stands(me, holds, false)
      ensures limits.max == 0 || old(gateActive) < limits.max ==> holds
    {
      var verdict := AcquireQueryGate(me);
      if verdict == Refused {
        return false;
      }
      holds := verdict == Granted;
      if !holds {
        holds := OthersMove(waiting, me, false);
        if !holds {
          WaitTimeout(me);
        }
      }
    }

    /**
     * query from start to end, with any moves of others at its two awaits: however it ends, its caller keeps neither
     * a permit nor a place in the line; an open breaker refuses it before the gate does.
     */
    method Query(me: Caller, breakerOpen: bool, waiting: seq<Action>, succeeds: bool, running: seq<Action>)
      returns (ending: Ending)
      requires Valid() && Stands(me, false, false) && me !in settled
      modifies this
      ensures Valid() && Stands(me, false, false)
      ensures ending == BreakerOpen <==> breakerOpen
      ensures breakerOpen ==> unchanged(this)
      ensures limits.max == 0 || old(gateActive) < limits.max ==> ending != Saturated
      ensures ending in {BreakerOpen, Saturated} || ending == (if succeeds then Succeeded else Threw)
    {
      if breakerOpen {
        return BreakerOpen;
      }
      var holds := AwaitPermit(me, waiting);
      if !holds {
        return Saturated;
      }
      holds := OthersMove(running, me, true);
      ending := if succeeds then Succeeded else Threw;
      var _ := ReleaseQueryGate(me);
    }

    /**
     * getClient from start to end: it hands out a client exactly when it succeeds, and then its caller has the one
     * permit that this client will give back; on every other exit it keeps neither a permit nor a place in the line.
     */
    method GetClient(me: Caller, breakerOpen: bool, waiting: seq<Action>, connects: bool, connecting: seq<Action>)
      returns (ending: Ending, client: Option<GatedClient>)
      requires Valid() && Stands(me, false, false) && me !in settled
      modifies this
      ensures Valid() && Stands(me, client.Some?, false)
      ensures client.Some? <==> ending == Succeeded
      ensures client.Some? ==>
                fresh(client.value) && client.value.owner == me && client.value.gate == this && !client.value.released
      ensures ending == BreakerOpen <==> breakerOpen
      ensures breakerOpen ==> unchanged(this)
      ensures limits.max == 0 || old(gateActive) < limits.max ==> ending != Saturated
      ensures ending in {BreakerOpen, Saturated} || ending == (if connects then Succeeded else Threw)
    {
      client := None;
      if breakerOpen {
        return BreakerOpen, None;
      }
      var holds := AwaitPermit(me, waiting);
      if !holds {
        return Saturated, None;
      }
      holds := OthersMove(connecting, me, true);
      if !connects {
        var _ := ReleaseQueryGate(me);
        return Threw, None;
      }
      var c := new GatedClient(this, me);
      return Succeeded, Some(c);
    }
  }

  /** The client getClient hands out: however often its user releases it, the gate is released once. */
  class GatedClient {
    const gate: QueryGate
    ghost const owner: Caller
    var released: bool

    constructor (gate: QueryGate, ghost owner: Caller)
      ensures this.gate == gate && this.owner == owner && !released
    {
      this.gate, this.owner, released := gate, owner, false;
    }

    method ReleaseClient() returns (next: Option<Caller>)
      requires gate.Valid() && (!released && gate.limits.max != 0 ==> owner in gate.holders)
      modifies this, gate
      ensures gate.Valid() && released
      ensures old(released) || gate.limits.max == 0 ==> next == None && gate.View() == old(gate.View())
      ensures old(released) || gate.limits.max == 0 ==> gate.holders == old(gate.holders)
      ensures !old(released) && gate.limits.max != 0 ==>
                && (gate.View(), next) == Release(old(gate.View()))
                && gate.holders == Passed(old(gate.holders), owner, next)
    {
      next := None;
      if !released {
        released := true;
        next := gate.ReleaseQueryGate(owner);
      }
    }
  }

  // ---- All callers of one gate ------------------------------------------------------------------------

  /** withBcryptConcurrency and query run one operation; getClient checks a client out. */
  datatype Kind = Operation | Checkout

  /**
   * Waiting, Running (the operation) and Connecting come first; a checkout then holds a client.  Returned means
   * that the permit was given back; a returned client may still be released again by its user.
   */
  datatype Phase = Waiting | Running | Connecting | CheckedOut | Returned | Turned | TimedOut

  datatype Record = Record(kind: Kind, phase: Phase)

  /** `granted` and `released` count, per caller, the permits taken and given back. */
  datatype World = World(
    sem: Sem,
    callers: map<Caller, Record>,
    next: Caller,
    granted: multiset<Caller>,
    released: multiset<Caller>)

  datatype Step =
    | Arrive(kind: Kind)
    | TimerFires(id: Caller)
    | Settles(id: Caller)         // the operation resolved or threw; `finally` releases
    | Connects(id: Caller)
    | ConnectFails(id: Caller)    // `catch` releases
    | ClientRelease(id: Caller)   // first or repeated call of client.release

  const EMPTY := World(Sem(0, []), map[], 0, multiset{}, multiset{})

  predicate Holder(p: Phase) { p == Running || p == Connecting || p == CheckedOut }

  function AfterGrant(k: Kind): Phase { if k == Operation then Running else Connecting }

  predicate PhaseIs(w: World, id: Caller, p: Phase) { id in w.callers && w.callers[id].phase == p }

  predicate Enabled(w: World, step: Step) {
    match step
    case Arrive(_) => true
    case TimerFires(id) => PhaseIs(w, id, Waiting)
    case Settles(id) => PhaseIs(w, id, Running)
    case Connects(id) => PhaseIs(w, id, Connecting)
    case ConnectFails(id) => PhaseIs(w, id, Connecting)
    case ClientRelease(id) =>
      && id in w.callers && w.callers[id].kind == Checkout
      && (w.callers[id].phase == CheckedOut || w.callers[id].phase == Returned)
  }

  function Move(w: World, id: Caller, p: Phase): World
    requires id in w.callers
  {
    w.(callers := w.callers[id := w.callers[id].(phase := p)])
  }

  /** The caller gives its permit back and the longest waiter, if any, takes it. */
  function GiveBack(w: World, id: Caller): World
    requires id in w.callers
  {
    var (s, next) := Release(w.sem);
    var v := Move(w, id, Returned).(sem := s, released := w.released + multiset{id});
    if next.Some? && next.value in v.callers
    then Move(v, next.value, AfterGrant(v.callers[next.value].kind)).(granted := v.granted + multiset{next.value})
    else v
  }

  function Apply(l: Limits, w: World, step: Step): World
    requires Enabled(w, step)
  {
    match step
    case Arrive(kind) =>
      var (s, verdict) := Acquire(l, w.sem, w.next);
      var phase := match verdict case Granted => AfterGrant(kind) case Queued => Waiting case Refused => Turned;
      World(s, w.callers[w.next := Record(kind, phase)], w.next + 1,
            if verdict == Granted then w.granted + multiset{w.next} else w.granted, w.released)
    case TimerFires(id) => Move(w, id, TimedOut).(sem := Expire(w.sem, id))
    case Settles(id) => GiveBack(w, id)
    case Connects(id) => Move(w, id, CheckedOut)
    case ConnectFails(id) => GiveBack(w, id)
    case ClientRelease(id) => if w.callers[id].phase == CheckedOut then GiveBack(w, id) else w
  }

  function Run(l: Limits, steps: seq<Step>): Option<World> {
    if steps == [] then Some(EMPTY)
    else
      var n := |steps| - 1;
      match Run(l, steps[..n])
      case None => None
      case Some(w) => if Enabled(w, steps[n]) then Some(Apply(l, w, steps[n])) else None
  }

  ghost predicate Increasing(s: seq<Caller>) { forall i, j :: 0 <= i < j < |s| ==> s[i] < s[j] }

  ghost function Holders(w: World): set<Caller> { set id | id in w.callers && Holder(w.callers[id].phase) }

  predicate WasGranted(p: Phase) { Holder(p) || p == Returned }

  /** A caller's counts say what its phase says, and whoever got a permit arrived before all who wait. */
  ghost predicate CallerOk(w: World, id: Caller)
    requires id in w.callers
  {
    var p := w.callers[id].phase;
    && id < w.next
    && w.granted[id] == (if WasGranted(p) then 1 else 0)
    && w.released[id] == (if p == Returned then 1 else 0)
    && (p == Waiting <==> id in w.sem.waiters)
    && (WasGranted(p) ==> forall b <- w.sem.waiters :: id < b)
  }

  ghost predicate PermitsOk(l: Limits, w: World) {
    && w.sem.active == |Holders(w)| <= l.max
    && (w.sem.waiters != [] ==> w.sem.active == l.max)
    && (l.maxWaiters.Some? && l.maxWaiters.value >= 0 ==> |w.sem.waiters| <= l.maxWaiters.value)
  }

  ghost predicate LineOk(w: World) {
    && Increasing(w.sem.waiters)
    && (forall id <- w.sem.waiters :: id in w.callers)
  }

  ghost predicate CallersOk(w: World) { forall id <- w.callers :: CallerOk(w, id) }

  ghost predicate BagsOk(w: World) { forall id :: id in w.granted || id in w.released ==> id in w.callers }

  ghost predicate Inv(l: Limits, w: World) {
    PermitsOk(l, w) && LineOk(w) && CallersOk(w) && BagsOk(w)
  }

  lemma IncreasingCons(x: Caller, s: seq<Caller>)
    requires Increasing(s) && forall y <- s :: x < y
    ensures Increasing([x] + s)
  {
    assert forall i :: 0 <= i < |s| ==> s[i] in s;
  }

  lemma IncreasingTail(s: seq<Caller>)
    requires Increasing(s) && s != []
    ensures Increasing(s[1..]) && forall y <- s[1..] :: s[0] < y
  {}

  lemma {:induction false} WithoutKeepsOrder(s: seq<Caller>, id: Caller)
    requires Increasing(s)
    ensures Increasing(Without(s, id)) && |Without(s, id)| <= |s|
    ensures forall x :: x in Without(s, id) <==> x in s && x != id
  {
    if s == [] {
    } else {
      IncreasingTail(s);
      WithoutKeepsOrder(s[1..], id);
      assert s == [s[0]] + s[1..];
      hide Increasing;
      if s[0] != id { IncreasingCons(s[0], Without(s[1..], id)); }
    }
  }

  lemma ArrivePermits(l: Limits, w: World, kind: Kind)
    requires l.max >= 1 && PermitsOk(l, w) && w.next !in w.callers
    ensures PermitsOk(l, Apply(l, w, Arrive(kind)))
  {
    var v := Apply(l, w, Arrive(kind));
    assert Holders(v) == if Acquire(l, w.sem, w.next).1 == Granted then Holders(w) + {w.next} else Holders(w);
  }

  lemma ArriveLine(l: Limits, w: World, kind: Kind)
    requires LineOk(w) && forall id <- w.sem.waiters :: id < w.next
    ensures LineOk(Apply(l, w, Arrive(kind)))
  {
    assert forall i :: 0 <= i < |w.sem.waiters| ==> w.sem.waiters[i] in w.sem.waiters;
  }

  lemma ArriveCaller(l: Limits, w: World, kind: Kind, id: Caller)
    requires PermitsOk(l, w) && LineOk(w) && BagsOk(w) && w.next !in w.callers
    requires id == w.next || (id in w.callers && CallerOk(w, id))
    ensures id in Apply(l, w, Arrive(kind)).callers && CallerOk(Apply(l, w, Arrive(kind)), id)
  {
    assert w.next !in w.granted && w.next !in w.released;
  }

  lemma ArriveKeepsInv(l: Limits, w: World, kind: Kind)
    requires l.max >= 1 && Inv(l, w)
    ensures Inv(l, Apply(l, w, Arrive(kind)))
  {
    var v := Apply(l, w, Arrive(kind));
    assert w.next !in w.callers && forall id <- w.sem.waiters :: id < w.next by {
      forall id <- w.callers ensures id < w.next { assert CallerOk(w, id); }
    }
    ArrivePermits(l, w, kind);
    ArriveLine(l, w, kind);
    hide PermitsOk, LineOk, CallerOk, Acquire;
    forall id <- v.callers ensures CallerOk(v, id) { ArriveCaller(l, w, kind, id); }
  }

  lemma TimeoutKeepsInv(l: Limits, w: World, id: Caller)
    requires l.max >= 1 && Inv(l, w) && PhaseIs(w, id, Waiting)
    ensures Inv(l, Apply(l, w, TimerFires(id)))
  {
    var v := Apply(l, w, TimerFires(id));
    WithoutKeepsOrder(w.sem.waiters, id);
    assert CallerOk(w, id);
    assert Holders(v) == Holders(w);
    forall x <- v.callers ensures CallerOk(v, x) { assert CallerOk(w, x); }
  }

  lemma GiveBackHolders(w: World, id: Caller)
    requires id in w.callers && Holder(w.callers[id].phase)
    requires w.sem.waiters != [] ==> PhaseIs(w, w.sem.waiters[0], Waiting)
    ensures id in Holders(w)
    ensures w.sem.waiters == [] ==> Holders(GiveBack(w, id)) == Holders(w) - {id}
    ensures w.sem.waiters != [] ==>
              w.sem.waiters[0] !in Holders(w) && Holders(GiveBack(w, id)) == Holders(w) - {id} + {w.sem.waiters[0]}
  {}

  lemma GiveBackSem(w: World, id: Caller)
    requires id in w.callers
    ensures GiveBack(w, id).sem == Release(w.sem).0
  {}

  lemma SwapCount(s: set<Caller>, a: Caller, b: Caller)
    requires a in s && b !in s
    ensures |s - {a}| == |s| - 1 && |s - {a} + {b}| == |s|
  {
    assert (s - {a}) !! {b};
  }

  lemma GiveBackPermits(l: Limits, w: World, id: Caller)
    requires l.max >= 1 && PermitsOk(l, w) && id in w.callers && Holder(w.callers[id].phase)
    requires w.sem.waiters != [] ==> PhaseIs(w, w.sem.waiters[0], Waiting)
    ensures PermitsOk(l, GiveBack(w, id))
  {
    GiveBackHolders(w, id);
    GiveBackSem(w, id);
    hide GiveBack, Holders;
    if w.sem.waiters != [] { SwapCount(Holders(w), id, w.sem.waiters[0]); }
  }

  lemma GiveBackLine(w: World, id: Caller)
    requires LineOk(w) && id in w.callers
    ensures LineOk(GiveBack(w, id))
    ensures w.sem.waiters != [] ==> w.sem.waiters[0] in w.callers
    ensures forall b <- GiveBack(w, id).sem.waiters :: b in w.sem.waiters && w.sem.waiters[0] < b
    ensures forall b <- w.sem.waiters :: b == w.sem.waiters[0] || b in GiveBack(w, id).sem.waiters
  {}

  lemma GiveBackCaller(w: World, id: Caller, x: Caller)
    requires LineOk(w) && id in w.callers && Holder(w.callers[id].phase)
    requires w.sem.waiters != [] ==> PhaseIs(w, w.sem.waiters[0], Waiting)
    requires x in w.callers && CallerOk(w, x)
    ensures x in GiveBack(w, id).callers && CallerOk(GiveBack(w, id), x)
  {
    GiveBackLine(w, id);
    hide LineOk;
  }

  lemma GiveBackKeepsInv(l: Limits, w: World, id: Caller)
    requires l.max >= 1 && Inv(l, w) && id in w.callers && Holder(w.callers[id].phase)
    ensures Inv(l, GiveBack(w, id))
  {
    var v := GiveBack(w, id);
    if w.sem.waiters != [] {
      assert CallerOk(w, w.sem.waiters[0]);
    }
    GiveBackPermits(l, w, id);
    GiveBackLine(w, id);
    hide PermitsOk, LineOk, CallerOk;
    forall x <- v.callers ensures CallerOk(v, x) { GiveBackCaller(w, id, x); }
  }

  lemma ConnectKeepsInv(l: Limits, w: World, id: Caller)
    requires Inv(l, w) && PhaseIs(w, id, Connecting)
    ensures Inv(l, Move(w, id, CheckedOut))
  {
    var v := Move(w, id, CheckedOut);
    assert Holders(v) == Holders(w);
    forall x <- v.callers ensures CallerOk(v, x) { assert CallerOk(w, x); }
  }

  lemma StepKeepsInv(l: Limits, w: World, step: Step)
    requires l.max >= 1 && Inv(l, w) && Enabled(w, step)
    ensures Inv(l, Apply(l, w, step))
  {
    hide Inv, GiveBack;
    match step
    case Arrive(kind) => ArriveKeepsInv(l, w, kind);
    case TimerFires(id) => TimeoutKeepsInv(l, w, id);
    case Connects(id) => ConnectKeepsInv(l, w, id);
    case ClientRelease(id) => if w.callers[id].phase == CheckedOut { GiveBackKeepsInv(l, w, id); }
    case _ => GiveBackKeepsInv(l, w, step.id);
  }

  lemma {:induction false} EveryRunKeepsInv(l: Limits, steps: seq<Step>)
    requires l.max >= 1
    ensures Run(l, steps).Some? ==> Inv(l, Run(l, steps).value)
  {
    if steps == [] {
      assert Holders(EMPTY) == {};
    } else {
      hide Inv, Apply, Enabled;
      var n := |steps| - 1;
      EveryRunKeepsInv(l, steps[..n]);
      if Run(l, steps).Some? {
        StepKeepsInv(l, Run(l, steps[..n]).value, steps[n]);
      }
    }
  }

  /** In every run: the count is the number of holders, within the maximum, and waiting means all permits are held. */
  lemma GateIsBounded(l: Limits, steps: seq<Step>)
    requires l.max >= 1 && Run(l, steps).Some?
    ensures var w := Run(l, steps).value;
            && w.sem.active == |Holders(w)| <= l.max
            && (w.sem.waiters != [] ==> |Holders(w)| == l.max)
            && (l.maxWaiters.Some? && l.maxWaiters.value >= 0 ==> |w.sem.waiters| <= l.maxWaiters.value)
  {
    EveryRunKeepsInv(l, steps);
  }

  /**
   * What an arriving caller meets: a free permit is taken at once, whatever the line; with all permits held it is
   * turned away if and only if there is a bound on the line and the line has reached it, and waits otherwise.
   */
  lemma TurnedAwayExactlyWhen(l: Limits, steps: seq<Step>, kind: Kind)
    requires l.max >= 1 && Run(l, steps).Some?
    ensures var w := Run(l, steps).value;
            var v := Apply(l, w, Arrive(kind));
            && w.next !in w.callers && w.next in v.callers
            && v.callers[w.next].kind == kind
            && v.callers[w.next].phase ==
               (if |Holders(w)| < l.max then (if kind == Operation then Running else Connecting)
                else if l.maxWaiters.Some? && |w.sem.waiters| >= l.maxWaiters.value then Turned
                else Waiting)
            && v.sem.waiters == w.sem.waiters + (if v.callers[w.next].phase == Waiting then [w.next] else [])
  {
    EveryRunKeepsInv(l, steps);
    var w := Run(l, steps).value;
    forall id <- w.callers ensures id < w.next { assert CallerOk(w, id); }
    hide Run, Holders;
  }

  /**
   * When a holder is done, its permit goes to the longest waiter if there is one, who then runs or checks its client
   * out; else the permit is free again.
   */
  lemma PermitIsPassedOn(l: Limits, steps: seq<Step>, step: Step, id: Caller)
    requires l.max >= 1 && Run(l, steps).Some? && Enabled(Run(l, steps).value, step)
    requires step == Settles(id) || step == ConnectFails(id) || step == ClientRelease(id)
    requires Holder(Run(l, steps).value.callers[id].phase)
    ensures var w := Run(l, steps).value;
            var v := Apply(l, w, step);
            && id in v.callers && v.callers[id].phase == Returned
            && if w.sem.waiters == [] then v.sem.active == w.sem.active - 1
               else var next := w.sem.waiters[0];
                    && v.sem == Sem(w.sem.active, w.sem.waiters[1..]) && next in w.callers && next in v.callers
                    && v.callers[next].phase == (if w.callers[next].kind == Operation then Running else Connecting)
  {
    EveryRunKeepsInv(l, steps);
    var w := Run(l, steps).value;
    assert CallerOk(w, id);
    if w.sem.waiters != [] { assert CallerOk(w, w.sem.waiters[0]); }
    hide Run, Holders;
  }

  /** First come, first served: whoever ever got a permit arrived before everyone who still waits. */
  lemma NobodyOvertakes(l: Limits, steps: seq<Step>, a: Caller, b: Caller)
    requires l.max >= 1 && Run(l, steps).Some?
    requires a in Run(l, steps).value.granted && b in Run(l, steps).value.sem.waiters
    ensures a < b
  {
    EveryRunKeepsInv(l, steps);
    assert CallerOk(Run(l, steps).value, a);
  }

  /** Each caller takes at most one permit; it gives back exactly that one, when it is done and not before. */
  lemma OneReleasePerAcquire(l: Limits, steps: seq<Step>, id: Caller)
    requires l.max >= 1 && Run(l, steps).Some? && id in Run(l, steps).value.callers
    ensures var w := Run(l, steps).value;
            var p := w.callers[id].phase;
            && w.granted[id] == (if Holder(p) || p == Returned then 1 else 0)
            && w.released[id] == (if p == Returned then 1 else 0)
  {
    EveryRunKeepsInv(l, steps);
    assert CallerOk(Run(l, steps).value, id);
  }

  // ---- Nobody waits in vain ----------------------------------------------------------------------------

  lemma Extend(l: Limits, steps: seq<Step>, w: World, step: Step)
    requires Run(l, steps) == Some(w) && Enabled(w, step)
    ensures Run(l, steps + [step]) == Some(Apply(l, w, step))
  {
    assert (steps + [step])[..|steps|] == steps;
  }

  /** The step by which a holder is done. */
  function DoneStep(w: World, id: Caller): Step
    requires id in w.callers
  {
    if w.callers[id].phase == Running then Settles(id)
    else if w.callers[id].phase == Connecting then ConnectFails(id)
    else ClientRelease(id)
  }

  lemma HolderCanEnd(l: Limits, w: World, id: Caller)
    requires Inv(l, w) && KindsOk(w) && id in w.callers && Holder(w.callers[id].phase)
    ensures Enabled(w, DoneStep(w, id)) && Apply(l, w, DoneStep(w, id)) == GiveBack(w, id)
  {
    hide Inv, GiveBack;
  }

  /** Only checkouts connect and hold clients. */
  predicate KindOk(r: Record) {
    && (r.phase == Running ==> r.kind == Operation)
    && (r.phase == Connecting || r.phase == CheckedOut ==> r.kind == Checkout)
  }

  ghost predicate KindsOk(w: World) { forall id <- w.callers :: KindOk(w.callers[id]) }

  lemma GiveBackKeepsKinds(w: World, x: Caller)
    requires KindsOk(w) && x in w.callers
    ensures KindsOk(GiveBack(w, x))
  {
    hide Release;
  }

  lemma KindsKept(l: Limits, w: World, step: Step)
    requires Enabled(w, step) && KindsOk(w)
    ensures KindsOk(Apply(l, w, step))
  {
    hide GiveBack, Acquire, Expire;
    match step
    case Settles(x) => GiveBackKeepsKinds(w, x);
    case ConnectFails(x) => GiveBackKeepsKinds(w, x);
    case ClientRelease(x) => GiveBackKeepsKinds(w, x);
    case _ =>
  }

  lemma {:induction false} EveryRunKeepsKinds(l: Limits, steps: seq<Step>)
    ensures Run(l, steps).Some? ==> KindsOk(Run(l, steps).value)
  {
    if steps == [] {
    } else {
      hide KindsOk, Apply, Enabled;
      var n := |steps| - 1;
      EveryRunKeepsKinds(l, steps[..n]);
      if Run(l, steps).Some? { KindsKept(l, Run(l, steps[..n]).value, steps[n]); }
    }
  }

  /** Some holder ends, and the head of the line has its permit. */
  lemma HeadIsServed(l: Limits, steps: seq<Step>, w: World) returns (more: seq<Step>, v: World)
    requires l.max >= 1 && Run(l, steps) == Some(w) && w.sem.waiters != []
    ensures steps <= more && Run(l, more) == Some(v) && v.sem.waiters == w.sem.waiters[1..]
    ensures var head := w.sem.waiters[0]; head in v.callers && Holder(v.callers[head].phase)
    ensures forall id <- w.sem.waiters[1..] :: id in v.callers && v.callers[id].phase == Waiting
  {
    EveryRunKeepsInv(l, steps);
    EveryRunKeepsKinds(l, steps);
    var id :| id in Holders(w);
    HolderCanEnd(l, w, id);
    Extend(l, steps, w, DoneStep(w, id));
    more, v := steps + [DoneStep(w, id)], GiveBack(w, id);
    forall x <- w.sem.waiters ensures x in w.callers && w.callers[x].phase == Waiting { assert CallerOk(w, x); }
    hide Run, Inv, DoneStep, KindsOk, Holders;
    IncreasingTail(w.sem.waiters);
  }

  /**
   * Whoever waits can get its permit: from every reachable state some continuation, in which holders end and nothing
   * else happens, has it running or checking its client out.
   */
  lemma {:induction false} WaiterIsServed(l: Limits, steps: seq<Step>, w: World, id: Caller)
    returns (more: seq<Step>, v: World)
    requires l.max >= 1 && Run(l, steps) == Some(w) && id in w.sem.waiters
    ensures steps <= more && Run(l, more) == Some(v) && id in v.callers && Holder(v.callers[id].phase)
    decreases |w.sem.waiters|
  {
    more, v := HeadIsServed(l, steps, w);
    if id != w.sem.waiters[0] {
      hide Run;
      assert id in w.sem.waiters[1..];
      more, v := WaiterIsServed(l, more, v, id);
    }
  }

  /** A checkout that has its permit can get its client, and give the permit back with it. */
  lemma CheckoutCanComplete(l: Limits, steps: seq<Step>, w: World, id: Caller) returns (more: seq<Step>, v: World)
    requires l.max >= 1 && Run(l, steps) == Some(w) && PhaseIs(w, id, Connecting)
    ensures steps <= more && Run(l, more) == Some(v) && PhaseIs(v, id, Returned) && v.released[id] == 1
  {
    EveryRunKeepsInv(l, steps);
    EveryRunKeepsKinds(l, steps);
    Extend(l, steps, w, Connects(id));
    var u := Apply(l, w, Connects(id));
    Extend(l, steps + [Connects(id)], u, ClientRelease(id));
    more, v := steps + [Connects(id)] + [ClientRelease(id)], Apply(l, u, ClientRelease(id));
    assert CallerOk(w, id);
    hide Run, Inv;
    if w.sem.waiters != [] { assert w.sem.waiters[0] != id; }
  }

  /** How one step may move a caller. */
  predicate PhaseMoves(w: World, step: Step, id: Caller, p: Phase, q: Phase) {
    && (p == Waiting && q != Waiting ==> (q == TimedOut && step == TimerFires(id))
                                         || (Holder(q) && w.sem.waiters != [] && w.sem.waiters[0] == id))
    && (p == TimedOut || p == Turned ==> q == p)
    && (WasGranted(p) ==> WasGranted(q))
  }

  lemma GiveBackMoves(w: World, step: Step, x: Caller, id: Caller)
    requires x in w.callers && id in w.callers && Holder(w.callers[x].phase)
    requires w.sem.waiters != [] ==> PhaseIs(w, w.sem.waiters[0], Waiting)
    ensures id in GiveBack(w, x).callers
    ensures PhaseMoves(w, step, id, w.callers[id].phase, GiveBack(w, x).callers[id].phase)
  {}

  lemma StepMoves(l: Limits, w: World, step: Step, id: Caller)
    requires Enabled(w, step) && id in w.callers && id < w.next
    requires w.sem.waiters != [] ==> PhaseIs(w, w.sem.waiters[0], Waiting)
    ensures id in Apply(l, w, step).callers
    ensures PhaseMoves(w, step, id, w.callers[id].phase, Apply(l, w, step).callers[id].phase)
  {
    hide GiveBack, Acquire, Expire, PhaseMoves;
    match step
    case Settles(x) => GiveBackMoves(w, step, x, id);
    case ConnectFails(x) => GiveBackMoves(w, step, x, id);
    case ClientRelease(x) =>
      if w.callers[x].phase == CheckedOut { GiveBackMoves(w, step, x, id); } else { StaysMoves(w, step, id); }
    case Arrive(_) => StaysMoves(w, step, id);
    case TimerFires(x) => OwnMoves(w, step, x, id, TimedOut);
    case Connects(x) => OwnMoves(w, step, x, id, CheckedOut);
  }

  lemma StaysMoves(w: World, step: Step, id: Caller)
    requires id in w.callers
    ensures PhaseMoves(w, step, id, w.callers[id].phase, w.callers[id].phase)
  {}

  lemma OwnMoves(w: World, step: Step, x: Caller, id: Caller, p: Phase)
    requires x in w.callers && id in w.callers
    requires (step == TimerFires(x) && p == TimedOut && w.callers[x].phase == Waiting)
             || (p == CheckedOut && w.callers[x].phase == Connecting)
    ensures PhaseMoves(w, step, id, w.callers[id].phase, Move(w, x, p).callers[id].phase)
  {}

  /** A waiter leaves the list admitted or timed out, and both are final with respect to the other. */
  lemma AdmittedOrTimedOut(l: Limits, steps: seq<Step>, step: Step, id: Caller)
    requires l.max >= 1 && Run(l, steps).Some? && Enabled(Run(l, steps).value, step)
    requires id in Run(l, steps).value.callers
    ensures var w := Run(l, steps).value;
            id in Apply(l, w, step).callers
            && PhaseMoves(w, step, id, w.callers[id].phase, Apply(l, w, step).callers[id].phase)
  {
    EveryRunKeepsInv(l, steps);
    var w := Run(l, steps).value;
    assert CallerOk(w, id) && id < w.next;
    if w.sem.waiters != [] {
      assert CallerOk(w, w.sem.waiters[0]);
    }
    hide Run, Inv, CallerOk, Apply, Enabled, PhaseMoves;
    StepMoves(l, w, step, id);
  }
}
