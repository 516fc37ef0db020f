/**
 * Buffered member counts, communityMemberCount.ts: what is conserved between the processes' pending deltas, the
 * flushes under way and the Redis hash, and exactly which outcomes break it.
 */
module MemberCounts {
  import opened Basics

  type Id = string

  type Deltas = map<Id, int>

  function Get(m: Deltas, id: Id): int { if id in m then m[id] else 0 }

  function Bump(m: Deltas, id: Id, delta: int): Deltas { m[id := Get(m, id) + delta] }

  function Merge(a: Deltas, b: Deltas): Deltas {
    map id | id in a.Keys + b.Keys :: Get(a, id) + Get(b, id)
  }

  function Part(m: Deltas, ids: set<Id>): Deltas { map id | id in m.Keys * ids :: m[id] }

  lemma MergeNothing(a: Deltas, b: Deltas)
    ensures Merge(a, Part(b, b.Keys - b.Keys)) == a
  {}

  lemma MergeAll(a: Deltas, b: Deltas)
    ensures Merge(a, Part(b, b.Keys)) == Merge(a, b)
  {
    assert Part(b, b.Keys) == b;
  }

  lemma MergeOneMore(a: Deltas, b: Deltas, ids: set<Id>, id: Id)
    requires id in b && id !in ids
    ensures Merge(a, Part(b, ids + {id})) == Bump(Merge(a, Part(b, ids)), id, b[id])
  {}

  // ---- One process -------------------------------------------------------------------------------------

  class CountBuffer {
    var pendingDeltas: Deltas
    var flushTimer: bool

    ghost predicate Valid()
      reads this
    {
      pendingDeltas != map[] ==> flushTimer
    }

    constructor ()
      ensures Valid() && pendingDeltas == map[] && !flushTimer
    {
      pendingDeltas, flushTimer := map[], false;
    }

    method ScheduleDeltaFlush()
      modifies this`flushTimer
      ensures flushTimer
    {
      if !flushTimer {
        flushTimer := true;
      }
    }

    method IncrCommunityMemberCount(communityId: Id)
      modifies this
      ensures Valid() && flushTimer && pendingDeltas == Bump(old(pendingDeltas), communityId, 1)
    {
      var delta := if communityId in pendingDeltas then pendingDeltas[communityId] else 0;
      pendingDeltas := pendingDeltas[communityId := delta + 1];
      ScheduleDeltaFlush();
    }

    method DecrCommunityMemberCount(communityId: Id)
      modifies this
      ensures Valid() && flushTimer && pendingDeltas == Bump(old(pendingDeltas), communityId, -1)
    {
      var delta := if communityId in pendingDeltas then pendingDeltas[communityId] else 0;
      pendingDeltas := pendingDeltas[communityId := delta - 1];
      ScheduleDeltaFlush();
    }

    /** The timer fires and the flush takes everything that is pending. */
    method TimerFires() returns (snapshot: Option<Deltas>)
      requires Valid() && flushTimer
      modifies this
      ensures Valid() && !flushTimer && pendingDeltas == map[]
      ensures snapshot == if old(pendingDeltas) == map[] then None else Some(old(pendingDeltas))
    {
      flushTimer := false;
      if |pendingDeltas| == 0 {
        return None;
      }
      snapshot := Some(pendingDeltas);
      pendingDeltas := map[];
    }

    /** The catch block: what the flush had taken goes back on top of what came in meanwhile. */
    method Requeue(snapshot: Deltas)
      modifies this
      ensures Valid() && flushTimer && pendingDeltas == Merge(old(pendingDeltas), snapshot)
    {
      var todo := snapshot.Keys;
      ghost var before := pendingDeltas;
      MergeNothing(before, snapshot);
      MergeAll(before, snapshot);
      hide Merge, Part;
      while todo != {}
        invariant todo <= snapshot.Keys && pendingDeltas == Merge(before, Part(snapshot, snapshot.Keys - todo))
        decreases |todo|
      {
        var communityId :| communityId in todo;
        MergeOneMore(before, snapshot, snapshot.Keys - todo, communityId);
        assert snapshot.Keys - (todo - {communityId}) == snapshot.Keys - todo + {communityId};
        pendingDeltas := pendingDeltas[communityId :=
          (if communityId in pendingDeltas then pendingDeltas[communityId] else 0) + snapshot[communityId]];
        todo := todo - {communityId};
      }
      assert snapshot.Keys - {} == snapshot.Keys;
      ScheduleDeltaFlush();
    }
  }

  // ---- All processes and Redis -------------------------------------------------------------------------

  datatype Buffer = Buffer(pending: Deltas, armed: bool)

  /** Sent: not applied yet.  Clamping: applied, and these counts came out negative. */
  datatype Stage = Sent | Clamping(below: set<Id>) | Done

  datatype Flight = Flight(worker: nat, snapshot: Deltas, stage: Stage)

  datatype World = World(redis: Deltas, workers: seq<Buffer>, flights: seq<Flight>)

  /**
   * A pipeline answers command by command, some of which may have `failed`, or is rejected as a whole, although
   * some commands may have been `applied`.  The same goes for the pipeline that clamps negative counts.
   */
  datatype Step =
    | Join(worker: nat, id: Id)
    | Leave(worker: nat, id: Id)
    | TimerFires(worker: nat)
    | Answers(flight: nat, failed: set<Id>)
    | Rejects(flight: nat, applied: set<Id>)
    | ClampAnswers(flight: nat, clamped: set<Id>)
    | ClampRejects(flight: nat, clamped: set<Id>)

  predicate Enabled(w: World, step: Step) {
    match step
    case Join(i, _) => i < |w.workers|
    case Leave(i, _) => i < |w.workers|
    case TimerFires(i) => i < |w.workers| && w.workers[i].armed
    case Answers(f, failed) => f < |w.flights| && w.flights[f].stage == Sent && failed <= w.flights[f].snapshot.Keys
    case Rejects(f, applied) =>
      && f < |w.flights| && w.flights[f].stage == Sent && applied <= w.flights[f].snapshot.Keys
      && w.flights[f].worker < |w.workers|
    case ClampAnswers(f, clamped) =>
      f < |w.flights| && w.flights[f].stage.Clamping? && clamped <= w.flights[f].stage.below
    case ClampRejects(f, clamped) =>
      && f < |w.flights| && w.flights[f].stage.Clamping? && clamped <= w.flights[f].stage.below
      && w.flights[f].worker < |w.workers|
  }

  function Incr(redis: Deltas, snapshot: Deltas, ids: set<Id>): Deltas {
    map id | id in redis.Keys + (snapshot.Keys * ids) :: Get(redis, id) + if id in ids then Get(snapshot, id) else 0
  }

  function Zero(redis: Deltas, ids: set<Id>): Deltas {
    map id | id in redis.Keys + ids :: if id in ids then 0 else redis[id]
  }

  /** The counts that `results` reports as negative. */
  function Below(redis: Deltas, done: set<Id>): set<Id> { set id | id in done && Get(redis, id) < 0 }

  function Requeued(w: World, f: nat, redis: Deltas): World
    requires f < |w.flights| && w.flights[f].worker < |w.workers|
  {
    var i := w.flights[f].worker;
    World(redis, w.workers[i := Buffer(Merge(w.workers[i].pending, w.flights[f].snapshot), true)],
          w.flights[f := w.flights[f].(stage := Done)])
  }

  function Apply(w: World, step: Step): World
    requires Enabled(w, step)
  {
    match step
    case Join(i, id) => w.(workers := w.workers[i := Buffer(Bump(w.workers[i].pending, id, 1), true)])
    case Leave(i, id) => w.(workers := w.workers[i := Buffer(Bump(w.workers[i].pending, id, -1), true)])
    case TimerFires(i) =>
      var b := w.workers[i];
      w.(workers := w.workers[i := Buffer(map[], false)],
         flights := if b.pending == map[] then w.flights else w.flights + [Flight(i, b.pending, Sent)])
    case Answers(f, failed) =>
      var snapshot := w.flights[f].snapshot;
      var done := snapshot.Keys - failed;
      var redis := Incr(w.redis, snapshot, done);
      var below := Below(redis, done);
      var stage := if below == {} then Done else Clamping(below);
      w.(redis := redis, flights := w.flights[f := w.flights[f].(stage := stage)])
    case Rejects(f, applied) => Requeued(w, f, Incr(w.redis, w.flights[f].snapshot, applied))
    case ClampAnswers(f, clamped) =>
      w.(redis := Zero(w.redis, clamped), flights := w.flights[f := w.flights[f].(stage := Done)])
    case ClampRejects(f, clamped) => Requeued(w, f, Zero(w.redis, clamped))
  }

  function Run(start: World, steps: seq<Step>): Option<World> {
    if steps == [] then Some(start)
    else
      var n := |steps| - 1;
      match Run(start, steps[..n])
      case None => None
      case Some(w) => if Enabled(w, steps[n]) then Some(Apply(w, steps[n])) else None
  }

  // ---- The balance of one community --------------------------------------------------------------------

  function SumPending(s: seq<Buffer>, id: Id): int {
    if s == [] then 0 else Get(s[0].pending, id) + SumPending(s[1..], id)
  }

  function Carries(f: Flight, id: Id): int { if f.stage == Sent then Get(f.snapshot, id) else 0 }

  function SumFlights(s: seq<Flight>, id: Id): int {
    if s == [] then 0 else Carries(s[0], id) + SumFlights(s[1..], id)
  }

  function Balance(w: World, id: Id): int {
    Get(w.redis, id) + SumPending(w.workers, id) + SumFlights(w.flights, id)
  }

  lemma {:induction false} PendingUpdated(s: seq<Buffer>, i: nat, b: Buffer, id: Id)
    requires i < |s|
    ensures SumPending(s[i := b], id) == SumPending(s, id) - Get(s[i].pending, id) + Get(b.pending, id)
  {
    if i == 0 {
    } else {
      assert s[i := b][1..] == s[1..][i - 1 := b];
      PendingUpdated(s[1..], i - 1, b, id);
    }
  }

  lemma {:induction false} FlightsUpdated(s: seq<Flight>, i: nat, f: Flight, id: Id)
    requires i < |s|
    ensures SumFlights(s[i := f], id) == SumFlights(s, id) - Carries(s[i], id) + Carries(f, id)
  {
    if i == 0 {
    } else {
      assert s[i := f][1..] == s[1..][i - 1 := f];
      FlightsUpdated(s[1..], i - 1, f, id);
    }
  }

  lemma {:induction false} FlightsAppended(s: seq<Flight>, f: Flight, id: Id)
    ensures SumFlights(s + [f], id) == SumFlights(s, id) + Carries(f, id)
  {
    if s == [] {
      assert [] + [f] == [f];
    } else {
      assert (s + [f])[1..] == s[1..] + [f];
      FlightsAppended(s[1..], f, id);
    }
  }

  /** Members who joined minus members who left. */
  function Net(step: Step, id: Id): int {
    if step.Join? && step.id == id then 1 else if step.Leave? && step.id == id then -1 else 0
  }

  /**
   * What a step adds to the balance beyond its joins and leaves: a failed command drops its delta, a rejected
   * pipeline re-queues deltas that were applied, and a clamp overwrites the count.
   */
  function Drift(w: World, step: Step, id: Id): int
    requires Enabled(w, step)
  {
    match step
    case Answers(f, failed) => if id in failed then -Get(w.flights[f].snapshot, id) else 0
    case Rejects(f, applied) => if id in applied then Get(w.flights[f].snapshot, id) else 0
    case ClampAnswers(_, clamped) => if id in clamped then -Get(w.redis, id) else 0
    case ClampRejects(f, clamped) =>
      Get(w.flights[f].snapshot, id) - if id in clamped then Get(w.redis, id) else 0
    case _ => 0
  }

  lemma RequeueBalance(w: World, f: nat, redis: Deltas, id: Id)
    requires f < |w.flights| && w.flights[f].worker < |w.workers|
    ensures var v := Requeued(w, f, redis);
            && SumPending(v.workers, id) == SumPending(w.workers, id) + Get(w.flights[f].snapshot, id)
            && SumFlights(v.flights, id) == SumFlights(w.flights, id) - Carries(w.flights[f], id)
            && v.redis == redis
  {
    var i := w.flights[f].worker;
    PendingUpdated(w.workers, i, Buffer(Merge(w.workers[i].pending, w.flights[f].snapshot), true), id);
    FlightsUpdated(w.flights, f, w.flights[f].(stage := Done), id);
  }

  lemma BufferStepBalance(w: World, step: Step, id: Id)
    requires Enabled(w, step) && (step.Join? || step.Leave? || step.TimerFires?)
    ensures Balance(Apply(w, step), id) == Balance(w, id) + Net(step, id)
  {
    var i := step.worker;
    PendingUpdated(w.workers, i, Apply(w, step).workers[i], id);
    FlightsAppended(w.flights, Flight(i, w.workers[i].pending, Sent), id);
  }

  lemma PipelineBalance(w: World, step: Step, id: Id)
    requires Enabled(w, step) && (step.Answers? || step.Rejects?)
    ensures Balance(Apply(w, step), id) == Balance(w, id) + Drift(w, step, id)
  {
    var f := step.flight;
    if step.Answers? {
      FlightsUpdated(w.flights, f, Apply(w, step).flights[f], id);
    } else {
      RequeueBalance(w, f, Incr(w.redis, w.flights[f].snapshot, step.applied), id);
    }
  }

  lemma ClampBalance(w: World, step: Step, id: Id)
    requires Enabled(w, step) && (step.ClampAnswers? || step.ClampRejects?)
    ensures Balance(Apply(w, step), id) == Balance(w, id) + Drift(w, step, id)
  {
    var f := step.flight;
    if step.ClampAnswers? {
      FlightsUpdated(w.flights, f, Apply(w, step).flights[f], id);
    } else {
      RequeueBalance(w, f, Zero(w.redis, step.clamped), id);
    }
  }

  /** Every step moves the balance of every community by exactly its joins, its leaves and its drift. */
  lemma StepBalance(w: World, step: Step, id: Id)
    requires Enabled(w, step)
    ensures Balance(Apply(w, step), id) == Balance(w, id) + Net(step, id) + Drift(w, step, id)
  {
    if step.Join? || step.Leave? || step.TimerFires? {
      BufferStepBalance(w, step, id);
    } else if step.Answers? || step.Rejects? {
      PipelineBalance(w, step, id);
    } else {
      ClampBalance(w, step, id);
    }
  }

  function TotalNet(steps: seq<Step>, id: Id): int {
    if steps == [] then 0 else TotalNet(steps[..|steps| - 1], id) + Net(steps[|steps| - 1], id)
  }

  /** No command failed or was applied under a rejection, and no count was clamped. */
  predicate Clean(step: Step) {
    match step
    case Answers(_, failed) => failed == {}
    case Rejects(_, applied) => applied == {}
    case ClampAnswers(_, clamped) => clamped == {}
    case ClampRejects(_, _) => false
    case _ => true
  }

  /** Redis, the pending deltas and the flushes under way together hold the start plus joins minus leaves. */
  lemma {:induction false} CountsAreConserved(start: World, steps: seq<Step>, id: Id)
    requires Run(start, steps).Some? && forall s <- steps :: Clean(s)
    ensures Balance(Run(start, steps).value, id) == Balance(start, id) + TotalNet(steps, id)
  {
    if steps == [] {
    } else {
      var n := |steps| - 1;
      assert steps[n] in steps;
      CountsAreConserved(start, steps[..n], id);
      StepBalance(Run(start, steps[..n]).value, steps[n], id);
      hide Balance, Apply, Enabled;
    }
  }

  function TotalDrift(start: World, steps: seq<Step>, id: Id): int
    requires Run(start, steps).Some?
  {
    if steps == [] then 0
    else
      var n := |steps| - 1;
      TotalDrift(start, steps[..n], id) + Drift(Run(start, steps[..n]).value, steps[n], id)
  }

  /** In any run at all, the balance is off by exactly the sum of the drifts, so it is right iff they cancel. */
  lemma {:induction false} BalanceIsOffByDrift(start: World, steps: seq<Step>, id: Id)
    requires Run(start, steps).Some?
    ensures Balance(Run(start, steps).value, id)
            == Balance(start, id) + TotalNet(steps, id) + TotalDrift(start, steps, id)
  {
    if steps == [] {
    } else {
      var n := |steps| - 1;
      BalanceIsOffByDrift(start, steps[..n], id);
      StepBalance(Run(start, steps[..n]).value, steps[n], id);
      hide Balance, Apply, Enabled, Drift;
    }
  }

  predicate Idle(w: World) {
    (forall b <- w.workers :: b.pending == map[]) && (forall f <- w.flights :: f.stage != Sent)
  }

  lemma {:induction false} IdleSums(workers: seq<Buffer>, flights: seq<Flight>, id: Id)
    requires (forall b <- workers :: b.pending == map[]) && (forall f <- flights :: f.stage != Sent)
    ensures SumPending(workers, id) == 0 && SumFlights(flights, id) == 0
    decreases |workers| + |flights|
  {
    if workers == [] {
    } else {
      IdleSums(workers[1..], [], id);
    }
    if flights != [] { IdleSums([], flights[1..], id); }
  }

  /** Once nothing is buffered or under way, Redis holds the true count. */
  lemma IdleMeansExact(start: World, steps: seq<Step>, id: Id)
    requires Run(start, steps).Some? && forall s <- steps :: Clean(s)
    requires Idle(start) && Idle(Run(start, steps).value)
    ensures Get(Run(start, steps).value.redis, id) == Get(start.redis, id) + TotalNet(steps, id)
  {
    CountsAreConserved(start, steps, id);
    IdleSums(start.workers, start.flights, id);
    IdleSums(Run(start, steps).value.workers, Run(start, steps).value.flights, id);
  }

  // ---- Timers ------------------------------------------------------------------------------------------

  ghost predicate TimersOk(w: World) { forall b <- w.workers :: b.pending != map[] ==> b.armed }

  /** Whatever fails, deltas that are pending have a flush to come. */
  lemma {:induction false} PendingMeansArmed(start: World, steps: seq<Step>)
    requires Run(start, steps).Some? && TimersOk(start)
    ensures TimersOk(Run(start, steps).value)
  {
    if steps == [] {
    } else {
      var n := |steps| - 1;
      PendingMeansArmed(start, steps[..n]);
      StepKeepsTimers(Run(start, steps[..n]).value, steps[n]);
      hide TimersOk, Apply, Enabled;
    }
  }

  lemma StepKeepsTimers(w: World, step: Step)
    requires Enabled(w, step) && TimersOk(w)
    ensures TimersOk(Apply(w, step))
  {}

  // ---- Everything can be flushed -----------------------------------------------------------------------

  function Unflushed(s: seq<Buffer>): nat {
    if s == [] then 0 else (if s[0].pending != map[] then 2 else 0) + Unflushed(s[1..])
  }

  function Unanswered(s: seq<Flight>): nat {
    if s == [] then 0 else (if s[0].stage == Sent then 1 else 0) + Unanswered(s[1..])
  }

  lemma {:induction false} UnflushedUpdated(s: seq<Buffer>, i: nat, b: Buffer)
    requires i < |s| && s[i].pending != map[] && b.pending == map[]
    ensures Unflushed(s[i := b]) + 2 == Unflushed(s)
  {
    if i == 0 {
    } else {
      assert s[i := b][1..] == s[1..][i - 1 := b];
      UnflushedUpdated(s[1..], i - 1, b);
    }
  }

  lemma {:induction false} UnansweredUpdated(s: seq<Flight>, i: nat, f: Flight)
    requires i < |s| && s[i].stage == Sent && f.stage != Sent
    ensures Unanswered(s[i := f]) + 1 == Unanswered(s)
  {
    if i == 0 {
    } else {
      assert s[i := f][1..] == s[1..][i - 1 := f];
      UnansweredUpdated(s[1..], i - 1, f);
    }
  }

  lemma {:induction false} UnansweredAppended(s: seq<Flight>, f: Flight)
    requires f.stage == Sent
    ensures Unanswered(s + [f]) == Unanswered(s) + 1
  {
    if s == [] {
      assert [] + [f] == [f];
    } else {
      assert (s + [f])[1..] == s[1..] + [f];
      UnansweredAppended(s[1..], f);
    }
  }

  lemma RunExtend(start: World, steps: seq<Step>, w: World, step: Step)
    requires Run(start, steps) == Some(w) && Enabled(w, step)
    ensures Run(start, steps + [step]) == Some(Apply(w, step))
  {
    assert (steps + [step])[..|steps|] == steps;
  }

  /** The timer of a buffer with deltas, or the answer to a pipeline that was sent. */
  lemma FlushStep(w: World) returns (step: Step)
    requires TimersOk(w) && !Idle(w)
    ensures Enabled(w, step) && Clean(step) && (step.TimerFires? || step.Answers?)
    ensures Unflushed(Apply(w, step).workers) + Unanswered(Apply(w, step).flights)
            < Unflushed(w.workers) + Unanswered(w.flights)
  {
    if i :| 0 <= i < |w.workers| && w.workers[i].pending != map[] {
      assert w.workers[i] in w.workers;
      step := TimerFires(i);
      UnflushedUpdated(w.workers, i, Buffer(map[], false));
      UnansweredAppended(w.flights, Flight(i, w.workers[i].pending, Sent));
    } else {
      var f :| f in w.flights && f.stage == Sent;
      var i :| 0 <= i < |w.flights| && w.flights[i] == f;
      step := Answers(i, {});
      UnansweredUpdated(w.flights, i, Apply(w, step).flights[i]);
    }
  }

  /**
   * From every state whose pending deltas have a timer, some continuation in which timers fire and pipelines are
   * answered without error leaves nothing pending or under way, and Redis then holds the whole balance.
   */
  lemma {:induction false} EverythingCanBeFlushed(start: World, steps: seq<Step>, w: World)
    returns (more: seq<Step>, v: World)
    requires Run(start, steps) == Some(w) && TimersOk(w)
    ensures steps <= more && Run(start, more) == Some(v) && Idle(v)
    ensures forall i :: |steps| <= i < |more| ==> more[i].TimerFires? || (more[i].Answers? && more[i].failed == {})
    ensures forall id :: Get(v.redis, id) == Balance(w, id)
    decreases Unflushed(w.workers) + Unanswered(w.flights)
  {
    hide Run, Apply, Balance, Unflushed, Unanswered, TimersOk;
    if Idle(w) {
      more, v := steps, w;
      forall id ensures Get(v.redis, id) == Balance(w, id) { IdleBalance(w, id); }
    } else {
      var step := FlushStep(w);
      RunExtend(start, steps, w, step);
      StepKeepsTimers(w, step);
      var u := Apply(w, step);
      more, v := EverythingCanBeFlushed(start, steps + [step], u);
      forall id ensures Get(v.redis, id) == Balance(w, id) {
        StepBalance(w, step, id);
        CleanHasNoDrift(w, step, id);
      }
    }
  }

  lemma IdleBalance(w: World, id: Id)
    requires Idle(w)
    ensures Get(w.redis, id) == Balance(w, id)
  {
    IdleSums(w.workers, w.flights, id);
  }

  lemma CleanHasNoDrift(w: World, step: Step, id: Id)
    requires Enabled(w, step) && Clean(step)
    ensures Drift(w, step, id) == 0
  {}

  // ---- What breaks it ----------------------------------------------------------------------------------

  /** A clamp is due for an id exactly when its command worked and made the count negative. */
  lemma ClampDueExactlyWhen(w: World, f: nat, failed: set<Id>, id: Id)
    requires Enabled(w, Answers(f, failed))
    ensures var s := Apply(w, Answers(f, failed)).flights[f].stage;
            (s.Clamping? && id in s.below)
            <==> id in w.flights[f].snapshot && id !in failed && Get(w.redis, id) + w.flights[f].snapshot[id] < 0
  {
    var snapshot := w.flights[f].snapshot;
    var redis := Incr(w.redis, snapshot, snapshot.Keys - failed);
    assert Get(redis, id) == Get(w.redis, id) + if id in snapshot && id !in failed then snapshot[id] else 0;
    var below := Below(redis, snapshot.Keys - failed);
    assert id in below <==> id in snapshot && id !in failed && Get(redis, id) < 0;
    assert Apply(w, Answers(f, failed)).flights[f].stage == if below == {} then Done else Clamping(below);
  }

  /** A clamp keeps the balance only when the count has meanwhile become 0 by itself. */
  lemma ClampKeepsBalanceExactlyWhen(w: World, f: nat, clamped: set<Id>, id: Id)
    requires Enabled(w, ClampAnswers(f, clamped)) && id in clamped
    ensures Balance(Apply(w, ClampAnswers(f, clamped)), id) == Balance(w, id) <==> Get(w.redis, id) == 0
  {
    StepBalance(w, ClampAnswers(f, clamped), id);
  }

  /**
   * A rejected clamp pipeline re-queues deltas that Redis has already counted, so each of them counts twice, and
   * those of its clamps that took effect overwrite their counts on top; the balance survives only if the two cancel.
   */
  lemma RejectedClampCountsTwice(w: World, f: nat, clamped: set<Id>, id: Id)
    requires Enabled(w, ClampRejects(f, clamped))
    ensures var twice := Get(w.flights[f].snapshot, id);
            var overwritten := if id in clamped then Get(w.redis, id) else 0;
            && Balance(Apply(w, ClampRejects(f, clamped)), id) == Balance(w, id) + twice - overwritten
            && (Balance(Apply(w, ClampRejects(f, clamped)), id) == Balance(w, id) <==> twice == overwritten)
  {
    StepBalance(w, ClampRejects(f, clamped), id);
  }

  /** A member leaves through one process before joining is flushed by another. */
  function Script(id: Id): seq<Step> {
    [Join(0, id), Leave(1, id), TimerFires(1), Answers(0, {}), ClampAnswers(0, {id}), TimerFires(0), Answers(1, {})]
  }

  function ScriptState(k: nat, id: Id): World {
    var idle, up, down := Buffer(map[], false), map[id := 1], map[id := -1];
    if k == 0 then World(map[], [idle, idle], [])
    else if k == 1 then World(map[], [Buffer(up, true), idle], [])
    else if k == 2 then World(map[], [Buffer(up, true), Buffer(down, true)], [])
    else if k == 3 then World(map[], [Buffer(up, true), idle], [Flight(1, down, Sent)])
    else if k == 4 then World(down, [Buffer(up, true), idle], [Flight(1, down, Clamping({id}))])
    else if k == 5 then World(map[id := 0], [Buffer(up, true), idle], [Flight(1, down, Done)])
    else if k == 6 then World(map[id := 0], [idle, idle], [Flight(1, down, Done), Flight(0, up, Sent)])
    else World(up, [idle, idle], [Flight(1, down, Done), Flight(0, up, Done)])
  }

  predicate Takes(w: World, step: Step, v: World) { Enabled(w, step) && Apply(w, step) == v }

  lemma ScriptBuffers(k: nat, id: Id)
    requires k in {0, 1, 2, 5}
    ensures Takes(ScriptState(k, id), Script(id)[k], ScriptState(k + 1, id))
  {
    assert id in map[id := 1] && id in map[id := -1];
  }

  lemma ScriptAnswer(id: Id)
    ensures Takes(ScriptState(3, id), Script(id)[3], ScriptState(4, id))
  {
    assert map[id := -1].Keys - {} == {id};
    assert Incr(map[], map[id := -1], {id}) == map[id := -1];
    assert Below(map[id := -1], {id}) == {id};
  }

  lemma ScriptClamp(id: Id)
    ensures Takes(ScriptState(4, id), Script(id)[4], ScriptState(5, id))
  {
    assert Zero(map[id := -1], {id}) == map[id := 0];
  }

  lemma ScriptLastAnswer(id: Id)
    ensures Takes(ScriptState(6, id), Script(id)[6], ScriptState(7, id))
  {
    assert map[id := 1].Keys - {} == {id};
    assert Incr(map[id := 0], map[id := 1], {id}) == map[id := 1];
    assert Below(map[id := 1], {id}) == {};
  }

  lemma {:induction false} ScriptReaches(k: nat, id: Id)
    requires k <= 7
    ensures Run(ScriptState(0, id), Script(id)[..k]) == Some(ScriptState(k, id))
  {
    if k == 0 {
    } else {
      ScriptReaches(k - 1, id);
      assert Script(id)[..k][..k - 1] == Script(id)[..k - 1];
      assert Script(id)[..k][k - 1] == Script(id)[k - 1];
      assert Takes(ScriptState(k - 1, id), Script(id)[k - 1], ScriptState(k, id)) by {
        hide Takes, ScriptState, Script;
        if k == 4 { ScriptAnswer(id); }
        else if k == 5 { ScriptClamp(id); }
        else if k == 7 { ScriptLastAnswer(id); }
        else { ScriptBuffers(k - 1, id); }
      }
      hide ScriptState, Script, Apply, Enabled;
    }
  }

  /** Redis then ends at 1 for a community that has gained nobody, although every command worked. */
  lemma LeaveBeforeJoinMiscounts(id: Id)
    ensures var run := Run(ScriptState(0, id), Script(id));
            && run.Some? && Idle(ScriptState(0, id)) && Idle(run.value)
            && TotalNet(Script(id), id) == 0
            && Get(ScriptState(0, id).redis, id) == 0 && Get(run.value.redis, id) == 1
  {
    ScriptReaches(7, id);
    assert Script(id)[..7] == Script(id);
    ScriptNet(id);
    hide Run, TotalNet;
  }

  lemma NetGrows(steps: seq<Step>, k: nat, id: Id)
    requires k < |steps|
    ensures TotalNet(steps[..k + 1], id) == TotalNet(steps[..k], id) + Net(steps[k], id)
  {
    assert steps[..k + 1][..k] == steps[..k];
  }

  lemma ScriptNet(id: Id)
    ensures TotalNet(Script(id), id) == 0
  {
    var s := Script(id);
    NetGrows(s, 0, id);
    NetGrows(s, 1, id);
    NetGrows(s, 2, id);
    NetGrows(s, 3, id);
    NetGrows(s, 4, id);
    NetGrows(s, 5, id);
    NetGrows(s, 6, id);
    assert s[..0] == [] && s[..7] == s;
  }
}
