/**
 * Write-behind mirror of presence into Postgres, presence/service.ts: batching must end where writing each status
 * directly would have ended.
 */
module PresenceMirror {
  import opened Basics

  type User = string

  datatype Snapshot = Snapshot(status: string, customMsg: Option<string>)

  /** One pending write: the user is the key. */
  type Mirror = Entry<User, Snapshot>

  /** PRESENCE_DB_MIRROR_BATCH_SIZE, `raw` being absent when it is not a number. */
  function BatchSize(raw: Option<int>): (size: int)
    ensures 1 <= size <= 2000
    ensures raw.Some? && 1 <= raw.value <= 2000 ==> size == raw.value
    ensures raw.None? || raw.value < 1 ==> size == 250
  {
    if raw.None? || raw.value < 1 then 250 else Min(2000, raw.value)
  }

  function Payload(status: string, customMsg: Option<string>): Snapshot {
    Snapshot(status, if status == "away" then customMsg else None)
  }

  // ---- The snapshot table ------------------------------------------------------------------------------

  type Table = map<User, Snapshot>

  function RowOf(table: Table, u: User): Option<Snapshot> { if u in table then Some(table[u]) else None }

  function UpsertAll(table: Table, batch: seq<Mirror>): Table
    decreases |batch|
  {
    if batch == [] then table else UpsertAll(table[batch[0].key := batch[0].value], batch[1..])
  }

  /** ON CONFLICT DO UPDATE fails as a whole when one statement would touch a row twice. */
  function MirrorSql(table: Table, batch: seq<Mirror>): Option<Table> {
    if DistinctKeys(batch) then Some(UpsertAll(table, batch)) else None
  }

  lemma {:induction false} UpsertLookup(table: Table, batch: seq<Mirror>, u: User)
    requires DistinctKeys(batch)
    ensures RowOf(UpsertAll(table, batch), u) == if Lookup(batch, u).Some? then Lookup(batch, u) else RowOf(table, u)
    decreases |batch|
  {
    if batch == [] {
    } else {
      UpsertLookup(table[batch[0].key := batch[0].value], batch[1..], u);
      LookupMember(batch[1..], u);
    }
  }

  // ---- The process -------------------------------------------------------------------------------------

  class MirrorQueue {
    const enabled: bool
    const batchSize: int
    var pendingPresenceDbMirrors: seq<Mirror>
    var presenceMirrorFlushInFlight: bool

    ghost predicate Valid()
      reads this
    {
      DistinctKeys(pendingPresenceDbMirrors) && batchSize >= 1
    }

    constructor (enabled: bool, rawBatchSize: Option<int>)
      ensures Valid() && pendingPresenceDbMirrors == [] && !presenceMirrorFlushInFlight
      ensures this.enabled == enabled && batchSize == BatchSize(rawBatchSize)
    {
      this.enabled := enabled;
      batchSize := BatchSize(rawBatchSize);
      pendingPresenceDbMirrors, presenceMirrorFlushInFlight := [], false;
    }

    method EnqueuePresenceDbMirror(userId: User, status: string, customMsg: Option<string>)
      requires Valid()
      modifies this`pendingPresenceDbMirrors
      ensures Valid()
      ensures pendingPresenceDbMirrors ==
              if enabled then DictSet(old(pendingPresenceDbMirrors), userId, Payload(status, customMsg))
              else old(pendingPresenceDbMirrors)
    {
      if !enabled {
        return;
      }
      DictSetFacts(pendingPresenceDbMirrors, userId, Payload(status, customMsg), userId);
      pendingPresenceDbMirrors := DictSet(pendingPresenceDbMirrors, userId, Payload(status, customMsg));
    }

    /** Up to the query: nothing while a batch is out or nothing is pending, else the oldest entries. */
    method TakeBatch() returns (batch: Option<seq<Mirror>>)
      requires Valid()
      modifies this
      ensures Valid()
      ensures batch == NextBatch(old(pendingPresenceDbMirrors), old(presenceMirrorFlushInFlight), batchSize)
      ensures presenceMirrorFlushInFlight == (old(presenceMirrorFlushInFlight) || batch.Some?)
      ensures pendingPresenceDbMirrors == old(pendingPresenceDbMirrors)[if batch.Some? then |batch.value| else 0..]
    {
      if presenceMirrorFlushInFlight || |pendingPresenceDbMirrors| == 0 {
        return None;
      }
      presenceMirrorFlushInFlight := true;
      var rows := [];
      ghost var before := pendingPresenceDbMirrors;
      while |pendingPresenceDbMirrors| > 0
        invariant before == rows + pendingPresenceDbMirrors && |rows| < batchSize
        invariant presenceMirrorFlushInFlight
      {
        rows := rows + [pendingPresenceDbMirrors[0]];
        pendingPresenceDbMirrors := pendingPresenceDbMirrors[1..];
        if |rows| >= batchSize {
          break;
        }
      }
      assert rows == before[..|rows|] && pendingPresenceDbMirrors == before[|rows|..];
      return Some(rows);
    }

    /** `finally`: whether the query worked or not. */
    method Settle()
      requires Valid()
      modifies this`presenceMirrorFlushInFlight
      ensures Valid() && !presenceMirrorFlushInFlight
    {
      presenceMirrorFlushInFlight := false;
    }
  }

  function NextBatch(pending: seq<Mirror>, inFlight: bool, batchSize: int): Option<seq<Mirror>>
    requires batchSize >= 1
  {
    if inFlight || pending == [] then None else Some(pending[..Min(batchSize, |pending|)])
  }

  // ---- Runs --------------------------------------------------------------------------------------------

  /** An error may be reported for a statement that took effect. */
  datatype Reply = Applied | ErrorAfterApplying | ErrorBeforeApplying

  datatype Step = Enqueue(userId: User, status: string, customMsg: Option<string>) | FlushStart | FlushEnd(reply: Reply)

  /**
   * `direct` is the table that writing each status at once would have made of the table the process found; `lost`
   * holds the users whose last status was in a batch that did not take effect.
   */
  datatype World = World(
    pending: seq<Mirror>, flight: Option<seq<Mirror>>, table: Table, direct: Table, lost: set<User>)

  /** A process starts with the table its predecessors left. */
  function Start(table: Table): World { World([], None, table, table, {}) }

  function Apply(batchSize: int, w: World, step: Step): World
    requires batchSize >= 1
  {
    match step
    case Enqueue(u, status, msg) =>
      var m := Payload(status, msg);
      w.(pending := DictSet(w.pending, u, m), direct := w.direct[u := m], lost := w.lost - {u})
    case FlushStart =>
      (match NextBatch(w.pending, w.flight.Some?, batchSize)
       case None => w
       case Some(batch) => w.(pending := w.pending[|batch|..], flight := Some(batch)))
    case FlushEnd(reply) =>
      if w.flight.None? then w
      else
        var t := MirrorSql(w.table, w.flight.value);
        if reply == ErrorBeforeApplying || t.None?
        then w.(flight := None, lost := w.lost + set m | m in w.flight.value && Lookup(w.pending, m.key).None? :: m.key)
        else w.(flight := None, table := t.value)
  }

  function Run(batchSize: int, table: Table, steps: seq<Step>): World
    requires batchSize >= 1
  {
    if steps == [] then Start(table)
    else Apply(batchSize, Run(batchSize, table, steps[..|steps| - 1]), steps[|steps| - 1])
  }

  function InFlight(w: World, u: User): Option<Snapshot> { if w.flight.Some? then Lookup(w.flight.value, u) else None }

  /** What a reader finds who looks into the pending entries, then the batch that is out, then the table. */
  function Found(w: World, u: User): Option<Snapshot> {
    if Lookup(w.pending, u).Some? then Lookup(w.pending, u)
    else if InFlight(w, u).Some? then InFlight(w, u)
    else RowOf(w.table, u)
  }

  /** The last status of `u` is found, unless it was lost; nothing pending or in flight is lost. */
  predicate Located(w: World, u: User) {
    && (u !in w.lost ==> Found(w, u) == RowOf(w.direct, u))
    && (Lookup(w.pending, u).Some? || InFlight(w, u).Some? ==> u !in w.lost)
  }

  ghost predicate Inv(batchSize: int, w: World) {
    && DistinctKeys(w.pending)
    && (w.flight.Some? ==> DistinctKeys(w.flight.value) && 1 <= |w.flight.value| <= batchSize)
    && (forall u :: Located(w, u))
  }

  lemma EnqueueKeepsInv(batchSize: int, w: World, user: User, status: string, msg: Option<string>)
    requires batchSize >= 1 && Inv(batchSize, w)
    ensures Inv(batchSize, Apply(batchSize, w, Enqueue(user, status, msg)))
  {
    var v := Apply(batchSize, w, Enqueue(user, status, msg));
    forall u ensures Located(v, u) {
      DictSetFacts(w.pending, user, Payload(status, msg), u);
      assert Located(w, u);
    }
    DictSetFacts(w.pending, user, Payload(status, msg), user);
  }

  lemma StartKeepsInv(batchSize: int, w: World)
    requires batchSize >= 1 && Inv(batchSize, w)
    ensures Inv(batchSize, Apply(batchSize, w, FlushStart))
  {
    var v := Apply(batchSize, w, FlushStart);
    var batch := NextBatch(w.pending, w.flight.Some?, batchSize);
    if batch.Some? {
      forall u ensures Located(v, u) {
        DistinctKeysParts(w.pending, |batch.value|, u);
        assert Located(w, u);
      }
      DistinctKeysParts(w.pending, |batch.value|, "");
    }
  }

  lemma EndKeepsInv(batchSize: int, w: World, reply: Reply)
    requires batchSize >= 1 && Inv(batchSize, w)
    ensures Inv(batchSize, Apply(batchSize, w, FlushEnd(reply)))
  {
    var v := Apply(batchSize, w, FlushEnd(reply));
    if w.flight.Some? {
      forall u ensures Located(v, u) {
        UpsertLookup(w.table, w.flight.value, u);
        LookupMember(w.flight.value, u);
        assert Located(w, u);
      }
    }
  }

  lemma {:induction false} EveryRunKeepsInv(batchSize: int, table: Table, steps: seq<Step>)
    requires batchSize >= 1
    ensures Inv(batchSize, Run(batchSize, table, steps))
  {
    if steps == [] {
    } else {
      var w := Run(batchSize, table, steps[..|steps| - 1]);
      EveryRunKeepsInv(batchSize, table, steps[..|steps| - 1]);
      hide Inv;
      match steps[|steps| - 1]
      case Enqueue(u, status, msg) =>
        EnqueueKeepsInv(batchSize, w, u, status, msg);
      case FlushStart => StartKeepsInv(batchSize, w);
      case FlushEnd(reply) => EndKeepsInv(batchSize, w, reply);
    }
  }

  /** A batch never fails for naming a user twice, and stays within the batch size. */
  lemma BatchesAreWellFormed(batchSize: int, table: Table, steps: seq<Step>)
    requires batchSize >= 1 && Run(batchSize, table, steps).flight.Some?
    ensures var w := Run(batchSize, table, steps);
            && DistinctKeys(w.flight.value) && 1 <= |w.flight.value| <= batchSize
            && MirrorSql(w.table, w.flight.value).Some?
  {
    EveryRunKeepsInv(batchSize, table, steps);
  }

  predicate EveryBatchApplies(steps: seq<Step>) { forall s <- steps :: s.FlushEnd? ==> s.reply != ErrorBeforeApplying }

  lemma {:induction false} NothingLost(batchSize: int, table: Table, steps: seq<Step>)
    requires batchSize >= 1 && EveryBatchApplies(steps)
    ensures Run(batchSize, table, steps).lost == {}
  {
    if steps == [] {
    } else {
      var n := |steps| - 1;
      assert steps[n] in steps;
      NothingLost(batchSize, table, steps[..n]);
      EveryRunKeepsInv(batchSize, table, steps[..n]);
    }
  }

  /** Each user's last status, or else the row found at the start, is what the next reader down the line sees. */
  lemma LatestStatusIsFound(batchSize: int, table: Table, steps: seq<Step>, u: User)
    requires batchSize >= 1 && EveryBatchApplies(steps)
    ensures var w := Run(batchSize, table, steps);
            RowOf(w.direct, u)
            == if Lookup(w.pending, u).Some? then Lookup(w.pending, u)
               else if InFlight(w, u).Some? then InFlight(w, u)
               else RowOf(w.table, u)
  {
    EveryRunKeepsInv(batchSize, table, steps);
    NothingLost(batchSize, table, steps);
    assert Located(Run(batchSize, table, steps), u);
  }

  function Rounds(k: nat): (steps: seq<Step>)
    ensures |steps| == 2 * k
  {
    if k == 0 then [] else Rounds(k - 1) + [FlushStart, FlushEnd(Applied)]
  }

  lemma RoundShrinks(batchSize: int, w: World)
    requires batchSize >= 1 && w.flight.None? && DistinctKeys(w.pending)
    ensures var v := Apply(batchSize, Apply(batchSize, w, FlushStart), FlushEnd(Applied));
            v.flight.None? && v.direct == w.direct && |v.pending| == Max(0, |w.pending| - batchSize)
  {}

  lemma OneMoreRound(batchSize: int, table: Table, steps: seq<Step>, k: nat)
    requires batchSize >= 1 && k >= 1
    ensures Run(batchSize, table, steps + Rounds(k))
            == Apply(batchSize, Apply(batchSize, Run(batchSize, table, steps + Rounds(k - 1)), FlushStart),
                     FlushEnd(Applied))
  {
    var before := steps + Rounds(k - 1);
    assert steps + Rounds(k) == before + [FlushStart] + [FlushEnd(Applied)];
    RunAppend(batchSize, table, before, FlushStart);
    RunAppend(batchSize, table, before + [FlushStart], FlushEnd(Applied));
  }

  function Left(length: nat, k: nat, batchSize: int): int { Max(0, length - k * batchSize) }

  lemma NothingTaken(length: nat, batchSize: int)
    ensures Left(length, 0, batchSize) == length
  {}

  lemma OneBatchLess(length: nat, k: nat, batchSize: int)
    requires k >= 1 && batchSize >= 1
    ensures Left(length, k, batchSize) == Max(0, Left(length, k - 1, batchSize) - batchSize)
  {
    assert k * batchSize == (k - 1) * batchSize + batchSize;
  }

  /** k flushes without new statuses take k batches off the pending entries. */
  lemma {:induction false} RoundsShrink(batchSize: int, table: Table, steps: seq<Step>, k: nat)
    requires batchSize >= 1 && Run(batchSize, table, steps).flight.None?
    ensures var w := Run(batchSize, table, steps + Rounds(k));
            && w.flight.None? && w.direct == Run(batchSize, table, steps).direct
            && |w.pending| == Left(|Run(batchSize, table, steps).pending|, k, batchSize)
  {
    hide Apply, Run, Left, DistinctKeys;
    if k == 0 {
      assert steps + Rounds(0) == steps;
      NothingTaken(|Run(batchSize, table, steps).pending|, batchSize);
    } else {
      var w := Run(batchSize, table, steps + Rounds(k - 1));
      RoundsShrink(batchSize, table, steps, k - 1);
      OneMoreRound(batchSize, table, steps, k);
      PendingIsDistinct(batchSize, table, steps + Rounds(k - 1));
      RoundShrinks(batchSize, w);
      OneBatchLess(|Run(batchSize, table, steps).pending|, k, batchSize);
    }
  }

  lemma PendingIsDistinct(batchSize: int, table: Table, steps: seq<Step>)
    requires batchSize >= 1
    ensures DistinctKeys(Run(batchSize, table, steps).pending)
  {
    EveryRunKeepsInv(batchSize, table, steps);
  }

  lemma RunAppend(batchSize: int, table: Table, steps: seq<Step>, step: Step)
    requires batchSize >= 1
    ensures Run(batchSize, table, steps + [step]) == Apply(batchSize, Run(batchSize, table, steps), step)
  {
    assert (steps + [step])[..|steps|] == steps;
  }

  /** Draining ends exactly where direct writes would have: the same rows, no more and no fewer. */
  lemma DrainingEqualsDirectWrites(batchSize: int, table: Table, steps: seq<Step>, k: nat)
    requires batchSize >= 1 && EveryBatchApplies(steps) && Run(batchSize, table, steps).flight.None?
    requires k * batchSize >= |Run(batchSize, table, steps).pending|
    ensures Run(batchSize, table, steps + Rounds(k)).table == Run(batchSize, table, steps).direct
  {
    var all := steps + Rounds(k);
    RoundsShrink(batchSize, table, steps, k);
    RoundsApply(k);
    assert EveryBatchApplies(all);
    var w := Run(batchSize, table, all);
    forall u ensures RowOf(w.direct, u) == RowOf(w.table, u) { LatestStatusIsFound(batchSize, table, all, u); }
    hide Run;
    SameRows(w.direct, w.table);
  }

  lemma {:induction false} DirectStays(batchSize: int, table: Table, steps: seq<Step>, after: seq<Step>, u: User)
    requires batchSize >= 1 && forall s <- after :: s.Enqueue? ==> s.userId != u
    ensures RowOf(Run(batchSize, table, steps + after).direct, u) == RowOf(Run(batchSize, table, steps).direct, u)
  {
    if after == [] {
      assert steps + after == steps;
    } else {
      var n := |after| - 1;
      assert steps + after == steps + after[..n] + [after[n]];
      assert after[n] in after && forall s <- after[..n] :: s in after;
      RunAppend(batchSize, table, steps + after[..n], after[n]);
      DirectStays(batchSize, table, steps, after[..n], u);
      hide Run;
    }
  }

  /**
   * What the table has for a user once the queue is drained, whatever else went on: the last status that was set, with
   * its message if and only if that status is "away".
   */
  lemma LastStatusIsStored(batchSize: int, table: Table, before: seq<Step>, u: User, status: string,
                           msg: Option<string>, after: seq<Step>, k: nat)
    requires var steps := before + [Enqueue(u, status, msg)] + after;
             && batchSize >= 1 && EveryBatchApplies(steps) && Run(batchSize, table, steps).flight.None?
             && k * batchSize >= |Run(batchSize, table, steps).pending|
    requires forall s <- after :: s.Enqueue? ==> s.userId != u
    ensures var drained := Run(batchSize, table, before + [Enqueue(u, status, msg)] + after + Rounds(k)).table;
            u in drained && drained[u] == if status == "away" then Snapshot(status, msg) else Snapshot(status, None)
  {
    var upTo := before + [Enqueue(u, status, msg)];
    DrainingEqualsDirectWrites(batchSize, table, upTo + after, k);
    DirectStays(batchSize, table, upTo, after, u);
    RunAppend(batchSize, table, before, Enqueue(u, status, msg));
    hide Run;
  }

  lemma SameRows(a: Table, b: Table)
    requires forall u :: RowOf(a, u) == RowOf(b, u)
    ensures a == b
  {
    forall u ensures u in a <==> u in b { assert RowOf(a, u) == RowOf(b, u); }
    forall u | u in a && u in b ensures a[u] == b[u] { assert RowOf(a, u) == RowOf(b, u); }
  }

  lemma {:induction false} RoundsApply(k: nat)
    ensures EveryBatchApplies(Rounds(k))
  {
    if k == 0 {
    } else {
      RoundsApply(k - 1);
    }
  }

  /**
   * A batch that fails is dropped.  Its users' last statuses are still found exactly when they are pending again or
   * the table happens to hold them already; nobody else is touched.
   */
  lemma FailedBatchKeepsExactlyWhen(batchSize: int, w: World, u: User)
    requires batchSize >= 1 && Inv(batchSize, w) && u !in w.lost
    ensures Found(Apply(batchSize, w, FlushEnd(ErrorBeforeApplying)), u) == RowOf(w.direct, u)
            <==> || InFlight(w, u) == None
                 || Lookup(w.pending, u).Some?
                 || RowOf(w.table, u) == InFlight(w, u)
  {
    assert Located(w, u);
  }

  /** From any table that does not hold the status yet, three steps lose it for good: no later flush writes it. */
  lemma FailedBatchIsDropped(table: Table, u: User, status: string, k: nat)
    requires RowOf(table, u) != Some(Payload(status, None))
    ensures var steps := [Enqueue(u, status, None), FlushStart, FlushEnd(ErrorBeforeApplying)];
            var w := Run(1, table, steps + Rounds(k));
            w.pending == [] && w.flight == None && w.table == table && RowOf(w.direct, u) == Some(Payload(status, None))
  {
    var m := Payload(status, None);
    var steps := [Enqueue(u, status, None), FlushStart, FlushEnd(ErrorBeforeApplying)];
    var w1 := World([Entry(u, m)], None, table, table[u := m], {});
    assert [Entry(u, m)][..1] == [Entry(u, m)];
    RunAppend(1, table, [], Enqueue(u, status, None));
    RunAppend(1, table, [Enqueue(u, status, None)], FlushStart);
    RunAppend(1, table, [Enqueue(u, status, None), FlushStart], FlushEnd(ErrorBeforeApplying));
    assert [] + [Enqueue(u, status, None)] == [Enqueue(u, status, None)];
    assert [Enqueue(u, status, None)] + [FlushStart] == [Enqueue(u, status, None), FlushStart];
    assert [Enqueue(u, status, None), FlushStart] + [FlushEnd(ErrorBeforeApplying)] == steps;
    assert Run(1, table, []) == Start(table);
    hide Run;
    assert Run(1, table, [Enqueue(u, status, None)]) == w1;
    assert Run(1, table, [Enqueue(u, status, None), FlushStart]) == w1.(pending := [], flight := Some(w1.pending));
    NothingMoreToWrite(table, steps, k);
  }

  lemma {:induction false} NothingMoreToWrite(table: Table, steps: seq<Step>, k: nat)
    requires var w := Run(1, table, steps); w.pending == [] && w.flight == None
    ensures Run(1, table, steps + Rounds(k)) == Run(1, table, steps)
  {
    if k == 0 {
      assert steps + Rounds(0) == steps;
    } else {
      NothingMoreToWrite(table, steps, k - 1);
      OneMoreRound(1, table, steps, k);
      hide Run;
      IdleRound(Run(1, table, steps));
    }
  }

  lemma IdleRound(w: World)
    requires w.pending == [] && w.flight == None
    ensures Apply(1, Apply(1, w, FlushStart), FlushEnd(Applied)) == w
  {}
}
