/**
 * Last-message pointers on their way from Redis to Postgres (repointLastMessage.ts): writers HSET then SADD,
 * flushers SMEMBERS, SREM, HGETALL and UPDATE, all interleaved.
 */
module PointerFlush {
  import opened Basics

  type Target = string
  type MsgId = string

  /** A decoded Redis hash; the empty author string stands for a system message and is restored to None. */
  datatype Pointer = Pointer(msg: MsgId, author: Option<string>, at: int)

  /** The three pointer columns of a channel or conversation row. */
  datatype Row = Row(msg: Option<MsgId>, author: Option<string>, at: Option<int>)

  /** What a message id fixes for ever. */
  datatype Fact = Fact(target: Target, author: Option<string>, at: int)

  type Db = map<Target, Row>

  function RowOf(p: Pointer): Row { Row(Some(p.msg), p.author, Some(p.at)) }

  /** The WHERE clause of both flush statements: not older than what is stored, and the message exists. */
  predicate Accepts(row: Row, p: Pointer, alive: set<MsgId>) {
    (row.at == None || p.at >= row.at.value) && p.msg in alive
  }

  /** CHANNEL_LAST_MESSAGE_FLUSH_SQL for one target. */
  function UpdateOne(db: Db, alive: set<MsgId>, t: Target, p: Pointer): Db {
    if t in db && Accepts(db[t], p, alive) then db[t := RowOf(p)] else db
  }

  /** CHANNEL_LAST_MESSAGE_FLUSH_BATCH_SQL; it also skips rows that already name the message. */
  function UpdateBatch(db: Db, alive: set<MsgId>, payload: map<Target, Pointer>): Db {
    map t | t in db ::
      if t in payload && Accepts(db[t], payload[t], alive) && db[t].msg != Some(payload[t].msg)
      then RowOf(payload[t]) else db[t]
  }

  type Item = Entry<Target, Pointer>

  /** The single-row fallback over the collected rows, one statement after another. */
  function UpdateAll(db: Db, alive: set<MsgId>, items: seq<Item>): Db {
    if items == [] then db
    else UpdateAll(UpdateOne(db, alive, items[0].key, items[0].value), alive, items[1..])
  }

  function PayloadOf(items: seq<Item>): map<Target, Pointer> {
    if items == [] then map[] else PayloadOf(items[1..])[items[0].key := items[0].value]
  }

  predicate PointerOk(facts: map<MsgId, Fact>, t: Target, p: Pointer) {
    p.msg in facts && facts[p.msg] == Fact(t, p.author, p.at)
  }

  predicate RowOk(facts: map<MsgId, Fact>, t: Target, row: Row) {
    row.msg.Some? ==>
      row.msg.value in facts && row.at.Some? && facts[row.msg.value] == Fact(t, row.author, row.at.value)
  }

  lemma {:induction false} PayloadLookup(items: seq<Item>)
    requires DistinctKeys(items)
    ensures forall i :: 0 <= i < |items| ==>
              items[i].key in PayloadOf(items) && PayloadOf(items)[items[i].key] == items[i].value
    ensures forall t <- PayloadOf(items) :: Entry(t, PayloadOf(items)[t]) in items
  {
    if items == [] {
    } else {
      PayloadLookup(items[1..]);
      assert items == [items[0]] + items[1..];
    }
  }

  lemma OrderIrrelevant(items: seq<Item>, order: seq<Item>)
    requires DistinctKeys(items) && DistinctKeys(order) && multiset(items) == multiset(order)
    ensures PayloadOf(order) == PayloadOf(items)
  {
    PayloadLookup(items);
    PayloadLookup(order);
    forall t <- PayloadOf(items) ensures t in PayloadOf(order) && PayloadOf(order)[t] == PayloadOf(items)[t] {
      assert Entry(t, PayloadOf(items)[t]) in multiset(order);
    }
    forall t <- PayloadOf(order) ensures t in PayloadOf(items) {
      assert Entry(t, PayloadOf(order)[t]) in multiset(items);
    }
  }

  lemma {:induction false} SinglesEqualBatch(db: Db, alive: set<MsgId>, facts: map<MsgId, Fact>, items: seq<Item>)
    requires DistinctKeys(items) && (forall t <- db :: RowOk(facts, t, db[t]))
    requires forall i <- items :: PointerOk(facts, i.key, i.value)
    ensures UpdateAll(db, alive, items) == UpdateBatch(db, alive, PayloadOf(items))
  {
    if items == [] {
      assert UpdateBatch(db, alive, map[]) == db;
    } else {
      var t, p := items[0].key, items[0].value;
      assert items[0] in items && forall i <- items[1..] :: i in items;
      UpdateKeepsRowsOk(db, alive, facts, t, p);
      SinglesEqualBatch(UpdateOne(db, alive, t, p), alive, facts, items[1..]);
      PayloadLookup(items[1..]);
      assert t !in PayloadOf(items[1..]);
      hide PayloadOf;
      OneThenBatch(db, alive, facts, t, p, PayloadOf(items[1..]));
      PayloadStep(items);
    }
  }

  lemma PayloadStep(items: seq<Item>)
    requires items != []
    ensures PayloadOf(items) == PayloadOf(items[1..])[items[0].key := items[0].value]
  {}

  lemma UpdateKeepsRowsOk(db: Db, alive: set<MsgId>, facts: map<MsgId, Fact>, t: Target, p: Pointer)
    requires PointerOk(facts, t, p) && (forall u <- db :: RowOk(facts, u, db[u]))
    ensures var after := UpdateOne(db, alive, t, p); forall u <- after :: RowOk(facts, u, after[u])
  {}

  /** A row that already names the message equals the row the update would write. */
  lemma OneThenBatch(db: Db, alive: set<MsgId>, facts: map<MsgId, Fact>, t: Target, p: Pointer,
                     rest: map<Target, Pointer>)
    requires t !in rest && PointerOk(facts, t, p) && (t in db ==> RowOk(facts, t, db[t]))
    ensures UpdateBatch(UpdateOne(db, alive, t, p), alive, rest) == UpdateBatch(db, alive, rest[t := p])
  {}

  /**
   * For distinct targets and message ids that fix author and time, one batch UPDATE leaves the same three
   * columns as the single-row statements run in any order.
   */
  lemma BatchEqualsSinglesInAnyOrder(db: Db, alive: set<MsgId>, facts: map<MsgId, Fact>, items: seq<Item>,
                                     order: seq<Item>)
    requires DistinctKeys(items) && DistinctKeys(order) && multiset(items) == multiset(order)
    requires (forall t <- db :: RowOk(facts, t, db[t])) && (forall i <- items :: PointerOk(facts, i.key, i.value))
    ensures UpdateAll(db, alive, order) == UpdateBatch(db, alive, PayloadOf(items))
  {
    OrderIrrelevant(items, order);
    forall i <- order ensures PointerOk(facts, i.key, i.value) { assert i in multiset(items); }
    SinglesEqualBatch(db, alive, facts, order);
  }

  predicate AtLeast(row: Row, at: int) { row.at.Some? && row.at.value >= at }

  /** A batch keeps the rows, lowers no last_message_at, and a row it changes names an existing message. */
  lemma BatchNeverLowers(db: Db, alive: set<MsgId>, payload: map<Target, Pointer>, t: Target)
    requires t in db
    ensures var after := UpdateBatch(db, alive, payload);
            && after.Keys == db.Keys
            && (db[t].at.Some? ==> AtLeast(after[t], db[t].at.value))
            && (after[t] != db[t] ==> t in payload && after[t] == RowOf(payload[t]) && payload[t].msg in alive)
  {}

  // ---- Collecting a batch from the HGETALL replies ----------------------------------------------------

  datatype HashReply = ReplyError | Hash(msg: string, author: string, at: Option<int>)

  /** A hash is usable when it has a message id and a time. */
  function Decode(r: HashReply): Option<Pointer> {
    if r.ReplyError? || r.msg == "" || r.at == None then None
    else Some(Pointer(r.msg, if r.author == "" then None else Some(r.author), r.at.value))
  }

  /** What HSET stores for a payload. */
  function Encode(p: Pointer): HashReply {
    Hash(p.msg, match p.author { case None => "" case Some(a) => a }, Some(p.at))
  }

  lemma DecodeAfterEncode(p: Pointer)
    ensures Decode(Encode(p)) == Some(p) <==> p.msg != "" && p.author != Some("")
  {}

  /** The collected rows are the usable replies, each with its own id, in order. */
  method CollectBatch(ids: seq<Target>, replies: seq<HashReply>) returns (items: seq<Item>)
    requires |ids| == |replies| && Distinct(ids)
    ensures DistinctKeys(items)
    ensures forall i :: 0 <= i < |ids| && Decode(replies[i]).Some? ==> Entry(ids[i], Decode(replies[i]).value) in items
    ensures forall x <- items :: exists i :: 0 <= i < |ids| && x.key == ids[i] && Decode(replies[i]) == Some(x.value)
  {
    items := [];
    for j := 0 to |ids|
      invariant DistinctKeys(items)
      invariant forall i :: 0 <= i < j && Decode(replies[i]).Some? ==> Entry(ids[i], Decode(replies[i]).value) in items
      invariant forall x <- items :: exists i :: 0 <= i < j && x.key == ids[i] && Decode(replies[i]) == Some(x.value)
    {
      if Decode(replies[j]).Some? {
        items := items + [Entry(ids[j], Decode(replies[j]).value)];
      }
    }
  }

  // ---- The distributed system -------------------------------------------------------------------------

  /** Listed: SMEMBERS answered.  Working: SREM done, `todo` not yet read, `read` not yet written. */
  datatype Flush = Listed(ids: set<Target>) | Working(todo: set<Target>, read: map<Target, Pointer>)

  /**
   * A repoint.  Reading: the statement has its snapshot, `seen`, and may wait for rows that are being deleted.
   * Picked: message m is chosen and locked against deletion, the row is written next.  Nulling: the statement wrote
   * no row, or met a foreign-key conflict, and the columns are nulled next.
   */
  datatype Repointing =
    | Reading(t: Target, seen: set<MsgId>) | Picked(t: Target, seen: set<MsgId>, m: MsgId) | Nulling(t: Target)

  /**
   * `writing` maps a writer between its HSET and its SADD to the target.  `dropped` and `overwritten` record the
   * targets that an error cut short, or a clear or a late repoint reached, since their last HSET; no step reads them.
   */
  datatype World = World(
    redis: map<Target, Pointer>,
    dirty: set<Target>,
    db: Db,
    alive: set<MsgId>,
    facts: map<MsgId, Fact>,
    writing: map<nat, Target>,
    flushing: map<nat, Flush>,
    repointing: map<nat, Repointing>,
    dropped: set<Target>,
    overwritten: set<Target>)

  datatype Step =
    | Insert(m: MsgId, fact: Fact)              // a message row appears
    | Delete(m: MsgId)                          // hard delete; the foreign key nulls the column
    | RepointBegins(r: nat, t: Target)
    | RepointPicks(r: nat, m: MsgId)            // the latest message of its snapshot that remains
    | RepointWrites(r: nat)                     // no later message has been posted meanwhile
    | RepointIsLate(r: nat)                     // it writes the row although one has
    | RepointStops(r: nat)                      // another error, or a crash
    | ClearBegins(r: nat, fk: bool)             // the statement updated no row, or failed on the foreign key
    | Clear(r: nat)                             // the statement that nulls the columns runs
    | Hset(w: nat, t: Target, p: Pointer)
    | Sadd(w: nat)
    | WriterFails(w: nat)                       // HSET executed, SADD not
    | Smembers(f: nat)
    | Srem(f: nat)
    | SremFails(f: nat, executed: set<Target>)  // the flush returns, although some of the SREM took effect
    | Hgetall(f: nat, t: Target)
    | Flush(f: nat)                             // the batch statement over what was read
    | FlushOne(f: nat, t: Target)               // one statement of the fallback
    | Drops(f: nat, ts: set<Target>)            // a failed HGETALL batch or reply, a failed statement, or a crash
    | Finish(f: nat)

  predicate IsWorking(w: World, f: nat) { f in w.flushing && w.flushing[f].Working? }

  predicate Latest(w: World, t: Target, m: MsgId) {
    && m in w.alive && m in w.facts && w.facts[m].target == t
    && (forall n <- w.alive :: n in w.facts && w.facts[n].target == t ==> w.facts[n].at <= w.facts[m].at)
  }

  predicate NoMessages(w: World, t: Target) { forall n <- w.alive :: n in w.facts ==> w.facts[n].target != t }

  /** The repoint's choice among the messages it has seen. */
  predicate LatestSeen(w: World, t: Target, seen: set<MsgId>, m: MsgId) {
    && m in seen && m in w.alive && m in w.facts && w.facts[m].target == t
    && (forall n <- w.alive :: n in seen && n in w.facts && w.facts[n].target == t ==> w.facts[n].at <= w.facts[m].at)
  }

  /** A repoint has picked m for a row that exists. */
  predicate AboutToWrite(w: World, r: nat) { r in w.repointing && w.repointing[r].Picked? && w.repointing[r].t in w.db }

  /** The statement can write no row: all it has seen is gone, or the row is. */
  predicate WritesNothing(w: World, r: nat) {
    r in w.repointing &&
    match w.repointing[r]
    case Reading(t, seen) => t !in w.db || forall n <- w.alive :: n in seen && n in w.facts ==> w.facts[n].target != t
    case Picked(t, _, _) => t !in w.db
    case Nulling(_) => false
  }

  predicate Enabled(w: World, step: Step) {
    match step
    case Insert(m, _) => m !in w.facts
    case Delete(m) =>
      m in w.alive && forall r <- w.repointing :: w.repointing[r].Picked? ==> w.repointing[r].m != m
    case RepointBegins(r, _) => r !in w.repointing
    case RepointPicks(r, m) =>
      && r in w.repointing && w.repointing[r].Reading?
      && LatestSeen(w, w.repointing[r].t, w.repointing[r].seen, m)
    case RepointWrites(r) => AboutToWrite(w, r) && Latest(w, w.repointing[r].t, w.repointing[r].m)
    case RepointIsLate(r) => AboutToWrite(w, r) && !Latest(w, w.repointing[r].t, w.repointing[r].m)
    case RepointStops(r) => r in w.repointing
    case ClearBegins(r, fk) => WritesNothing(w, r) || (fk && r in w.repointing && !w.repointing[r].Nulling?)
    case Clear(r) => r in w.repointing && w.repointing[r].Nulling?
    case Hset(x, t, p) => x !in w.writing && PointerOk(w.facts, t, p)
    case Sadd(x) => x in w.writing
    case WriterFails(x) => x in w.writing
    case Smembers(f) => f !in w.flushing
    case Srem(f) => f in w.flushing && w.flushing[f].Listed?
    case SremFails(f, executed) => f in w.flushing && w.flushing[f].Listed? && executed <= w.flushing[f].ids
    case Hgetall(f, t) => IsWorking(w, f) && t in w.flushing[f].todo
    case Flush(f) => IsWorking(w, f)
    case FlushOne(f, t) => IsWorking(w, f) && t in w.flushing[f].read
    case Drops(f, ts) => IsWorking(w, f) && ts <= w.flushing[f].todo + w.flushing[f].read.Keys
    case Finish(f) => f in w.flushing && w.flushing[f] == Working({}, map[])
  }

  function Forget(db: Db, m: MsgId): Db {
    map t | t in db :: if db[t].msg == Some(m) then db[t].(msg := None) else db[t]
  }

  function NullRow(db: Db, t: Target): Db { if t in db then db[t := Row(None, None, None)] else db }

  /** What the repoint statement writes. */
  function Repointed(w: World, rp: Repointing): Db
    requires rp.Picked?
  {
    if rp.m in w.facts then w.db[rp.t := Row(Some(rp.m), w.facts[rp.m].author, Some(w.facts[rp.m].at))] else w.db
  }

  function Apply(w: World, step: Step): World
    requires Enabled(w, step)
  {
    match step
    case Insert(m, fact) => w.(facts := w.facts[m := fact], alive := w.alive + {m})
    case Delete(m) => w.(alive := w.alive - {m}, db := Forget(w.db, m))
    case RepointBegins(r, t) => w.(repointing := w.repointing[r := Reading(t, w.alive)])
    case RepointPicks(r, m) => w.(repointing := w.repointing[r := Picked(w.repointing[r].t, w.repointing[r].seen, m)])
    case RepointWrites(r) => w.(db := Repointed(w, w.repointing[r]), repointing := w.repointing - {r})
    case RepointIsLate(r) =>
      w.(db := Repointed(w, w.repointing[r]), repointing := w.repointing - {r},
         overwritten := w.overwritten + {w.repointing[r].t})
    case RepointStops(r) => w.(repointing := w.repointing - {r})
    case ClearBegins(r, _) => w.(repointing := w.repointing[r := Nulling(w.repointing[r].t)])
    case Clear(r) =>
      w.(db := NullRow(w.db, w.repointing[r].t), repointing := w.repointing - {r},
         overwritten := w.overwritten + {w.repointing[r].t})
    case Hset(x, t, p) =>
      w.(redis := w.redis[t := p], writing := w.writing[x := t],
         dropped := w.dropped - {t}, overwritten := w.overwritten - {t})
    case Sadd(x) => w.(dirty := w.dirty + {w.writing[x]}, writing := w.writing - {x})
    case WriterFails(x) => w.(dropped := w.dropped + {w.writing[x]}, writing := w.writing - {x})
    case Smembers(f) => w.(flushing := w.flushing[f := Listed(w.dirty)])
    case Srem(f) =>
      w.(dirty := w.dirty - w.flushing[f].ids, flushing := w.flushing[f := Working(w.flushing[f].ids, map[])])
    case SremFails(f, executed) =>
      w.(dirty := w.dirty - executed, dropped := w.dropped + executed, flushing := w.flushing - {f})
    case Hgetall(f, t) =>
      var fl := w.flushing[f];
      var read := if t in w.redis then fl.read[t := w.redis[t]] else fl.read;
      w.(flushing := w.flushing[f := Working(fl.todo - {t}, read)])
    case Flush(f) =>
      w.(db := UpdateBatch(w.db, w.alive, w.flushing[f].read),
         flushing := w.flushing[f := Working(w.flushing[f].todo, map[])])
    case FlushOne(f, t) =>
      var fl := w.flushing[f];
      w.(db := UpdateOne(w.db, w.alive, t, fl.read[t]), flushing := w.flushing[f := Working(fl.todo, fl.read - {t})])
    case Drops(f, ts) =>
      var fl := w.flushing[f];
      w.(dropped := w.dropped + ts, flushing := w.flushing[f := Working(fl.todo - ts, fl.read - ts)])
    case Finish(f) => w.(flushing := w.flushing - {f})
  }

  predicate IsFailure(step: Step) { step.WriterFails? || step.SremFails? || step.Drops? }

  /** The columns are nulled, or a repoint writes an old message. */
  predicate IsOverwrite(step: Step) { step.Clear? || step.RepointIsLate? }

  predicate Clean(step: Step) { !IsFailure(step) && !IsOverwrite(step) }

  /** The state after a run. */
  function Run(start: World, steps: seq<Step>): Option<World> {
    if steps == [] then Some(start)
    else
      var n := |steps| - 1;
      match Run(start, steps[..n])
      case None => None
      case Some(w) => if Enabled(w, steps[n]) then Some(Apply(w, steps[n])) else None
  }

  /** A consistent database with empty Redis keys; repoints may be under way. */
  ghost predicate Initial(w: World) {
    && w.redis == map[] && w.dirty == {} && w.writing == map[] && w.flushing == map[]
    && w.dropped == w.overwritten == {}
    && w.alive <= w.facts.Keys && (forall t <- w.db :: RowOk(w.facts, t, w.db[t]))
    && (forall r <- w.repointing :: RepointOk(w.facts, w.repointing[r]))
  }

  // ---- Invariant --------------------------------------------------------------------------------------

  /** Postgres is at or past the pointer, or can never be: the message or the target row is gone. */
  predicate CaughtUp(w: World, t: Target, p: Pointer) {
    t !in w.db || AtLeast(w.db[t], p.at) || p.msg !in w.alive
  }

  /** A flusher has taken the id and has still to act on what Redis shows. */
  predicate Holds(fl: Flush, t: Target, p: Pointer) {
    fl.Working? && (t in fl.todo || (t in fl.read && fl.read[t] == p))
  }

  ghost predicate BeingWritten(w: World, t: Target) { exists x :: x in w.writing && w.writing[x] == t }

  ghost predicate Held(w: World, t: Target, p: Pointer) { exists f :: f in w.flushing && Holds(w.flushing[f], t, p) }

  ghost predicate InHand(w: World, t: Target, p: Pointer) { BeingWritten(w, t) || Held(w, t, p) }

  /** What Redis shows for the target is in Postgres, or somebody is still going to bring it there. */
  ghost predicate Safe(w: World, t: Target) {
    t in w.redis ==> CaughtUp(w, t, w.redis[t]) || t in w.dirty || InHand(w, t, w.redis[t])
  }

  ghost predicate Covered(w: World, t: Target) {
    Safe(w, t) || (t in w.redis && (t in w.dropped || t in w.overwritten))
  }

  predicate RepointOk(facts: map<MsgId, Fact>, rp: Repointing) {
    rp.Picked? ==> rp.m in facts && facts[rp.m].target == rp.t
  }

  predicate FlushOk(facts: map<MsgId, Fact>, fl: Flush) {
    fl.Working? ==> forall t <- fl.read :: PointerOk(facts, t, fl.read[t])
  }

  ghost predicate FactsInv(w: World) {
    && w.alive <= w.facts.Keys
    && (forall t <- w.redis :: PointerOk(w.facts, t, w.redis[t]))
    && (forall t <- w.db :: RowOk(w.facts, t, w.db[t]))
    && (forall f <- w.flushing :: FlushOk(w.facts, w.flushing[f]))
    && (forall r <- w.repointing :: RepointOk(w.facts, w.repointing[r]))
  }

  ghost predicate Inv(w: World) { FactsInv(w) && forall t :: Covered(w, t) }

  ghost predicate RowsOk(w: World) { forall t <- w.db :: RowOk(w.facts, t, w.db[t]) }

  lemma RowsOkKept(w: World, step: Step)
    requires FactsInv(w) && Enabled(w, step)
    ensures RowsOk(Apply(w, step))
  {
    if step.Flush? || step.FlushOne? { assert FlushOk(w.facts, w.flushing[step.f]); }
    if step.RepointWrites? || step.RepointIsLate? { assert RepointOk(w.facts, w.repointing[step.r]); }
  }

  lemma RepointsOkKept(w: World, step: Step)
    requires FactsInv(w) && Enabled(w, step)
    ensures forall r <- Apply(w, step).repointing :: RepointOk(Apply(w, step).facts, Apply(w, step).repointing[r])
  {
    hide UpdateBatch, UpdateOne, RowOk, Latest, FlushOk;
  }

  lemma FlushersOkKept(w: World, step: Step)
    requires FactsInv(w) && Enabled(w, step)
    ensures forall f <- Apply(w, step).flushing :: FlushOk(Apply(w, step).facts, Apply(w, step).flushing[f])
  {
    if step.Flush? || step.FlushOne? || step.Hgetall? || step.Drops? {
      assert FlushOk(w.facts, w.flushing[step.f]);
    }
    hide UpdateBatch, UpdateOne, RowOk, Latest, RepointOk;
  }

  lemma PointersOkKept(w: World, step: Step)
    requires FactsInv(w) && Enabled(w, step)
    ensures var v := Apply(w, step);
            v.alive <= v.facts.Keys && forall t <- v.redis :: PointerOk(v.facts, t, v.redis[t])
  {
    hide UpdateBatch, UpdateOne, RowOk, FlushOk, Latest, RepointOk;
  }

  lemma FactsKept(w: World, step: Step)
    requires FactsInv(w) && Enabled(w, step)
    ensures FactsInv(Apply(w, step))
  {
    RowsOkKept(w, step);
    FlushersOkKept(w, step);
    PointersOkKept(w, step);
    RepointsOkKept(w, step);
    hide Apply, Enabled;
  }

  predicate Overwrites(w: World, step: Step, t: Target) {
    IsOverwrite(step) && step.r in w.repointing && w.repointing[step.r].t == t
  }

  lemma CaughtUpKept(w: World, step: Step, t: Target, p: Pointer)
    requires FactsInv(w) && Enabled(w, step) && PointerOk(w.facts, t, p) && CaughtUp(w, t, p) && !Overwrites(w, step, t)
    ensures CaughtUp(Apply(w, step), t, p)
  {}

  lemma WriterKept(w: World, step: Step, t: Target, x: nat)
    requires Enabled(w, step) && x in w.writing && w.writing[x] == t && !step.Hset?
    ensures var v := Apply(w, step);
            t in v.dirty || (step.WriterFails? && t in v.dropped) || (x in v.writing && v.writing[x] == t)
  {}

  /** The steps of flusher f itself. */
  predicate StepsOf(step: Step, f: nat) {
    (step.Hgetall? || step.Flush? || step.FlushOne? || step.Drops? || step.Finish?) && step.f == f
  }

  lemma OthersLeaveFlusher(w: World, step: Step, f: nat)
    requires Enabled(w, step) && IsWorking(w, f) && !StepsOf(step, f)
    ensures f in Apply(w, step).flushing && Apply(w, step).flushing[f] == w.flushing[f]
  {}

  lemma FlusherKept(w: World, step: Step, t: Target, f: nat)
    requires FactsInv(w) && Enabled(w, step) && t in w.redis && !step.Hset?
    requires f in w.flushing && Holds(w.flushing[f], t, w.redis[t])
    ensures var v := Apply(w, step);
            || CaughtUp(v, t, w.redis[t]) || (step.Drops? && t in v.dropped)
            || (f in v.flushing && Holds(v.flushing[f], t, w.redis[t]))
  {
    if StepsOf(step, f) {
      OwnStepKeeps(w, step, t, f);
    } else {
      OthersLeaveFlusher(w, step, f);
    }
    hide Apply, Enabled, FactsInv, CaughtUp;
  }

  /** What a flusher does to an id it holds: bring it to Postgres, drop it, or go on holding it. */
  lemma OwnStepKeeps(w: World, step: Step, t: Target, f: nat)
    requires Enabled(w, step) && t in w.redis && StepsOf(step, f) && Holds(w.flushing[f], t, w.redis[t])
    requires PointerOk(w.facts, t, w.redis[t]) && (t in w.db ==> RowOk(w.facts, t, w.db[t]))
    ensures var v := Apply(w, step);
            || CaughtUp(v, t, w.redis[t]) || (step.Drops? && t in v.dropped)
            || (f in v.flushing && Holds(v.flushing[f], t, w.redis[t]))
  {}

  lemma DirtyKept(w: World, step: Step, t: Target)
    requires Enabled(w, step) && t in w.dirty && t in w.redis && !step.Hset?
    ensures var v := Apply(w, step);
            || t in v.dirty || (step.SremFails? && t in v.dropped)
            || (step.Srem? && step.f in v.flushing && Holds(v.flushing[step.f], t, w.redis[t]))
  {}

  lemma HsetIsSafe(w: World, x: nat, t: Target, p: Pointer, u: Target)
    requires Enabled(w, Hset(x, t, p)) && (u == t || Safe(w, u))
    ensures Safe(Apply(w, Hset(x, t, p)), u)
  {
    var v := Apply(w, Hset(x, t, p));
    if u == t {
      assert x in v.writing && v.writing[x] == t;
    } else if u in w.redis && InHand(w, u, w.redis[u]) {
      if y :| y in w.writing && w.writing[y] == u {
        assert y in v.writing && v.writing[y] == u;
      } else {
        var f :| f in w.flushing && Holds(w.flushing[f], u, w.redis[u]);
        assert f in v.flushing && Holds(v.flushing[f], u, v.redis[u]);
      }
    }
  }

  /** Only an error on the target's way, or a clear of the target, can make it unsafe. */
  lemma SafeKept(w: World, step: Step, t: Target)
    requires FactsInv(w) && Safe(w, t) && Enabled(w, step)
    ensures var v := Apply(w, step);
            || Safe(v, t)
            || (t in v.redis && ((IsFailure(step) && t in v.dropped) || (Overwrites(w, step, t) && t in v.overwritten)))
  {
    if step.Hset? {
      HsetIsSafe(w, step.w, step.t, step.p, t);
    } else if t in w.redis {
      var p := w.redis[t];
      OnlyHsetForgets(w, step, t);
      var v := Apply(w, step);
      assert Overwrites(w, step, t) ==> t in v.overwritten;
      hide Apply, Enabled, CaughtUp, Holds;
      if t in w.dirty {
        DirtyKept(w, step, t);
      } else if x :| x in w.writing && w.writing[x] == t {
        WriterKept(w, step, t, x);
      } else if f :| f in w.flushing && Holds(w.flushing[f], t, p) {
        FlusherKept(w, step, t, f);
      } else if !Overwrites(w, step, t) {
        CaughtUpKept(w, step, t, p);
      }
    } else {
      OnlyHsetForgets(w, step, t);
    }
  }

  lemma OnlyHsetForgets(w: World, step: Step, t: Target)
    requires Enabled(w, step) && !step.Hset?
    ensures var v := Apply(w, step);
            v.redis == w.redis && (t in w.dropped ==> t in v.dropped) && (t in w.overwritten ==> t in v.overwritten)
  {}

  lemma CoveredKept(w: World, step: Step, t: Target)
    requires FactsInv(w) && Covered(w, t) && Enabled(w, step)
    ensures Covered(Apply(w, step), t)
  {
    hide Apply, Enabled, Safe;
    if Safe(w, t) {
      SafeKept(w, step, t);
    } else if step.Hset? {
      OtherHsetForgets(w, step, t);
    } else {
      OnlyHsetForgets(w, step, t);
    }
  }

  lemma OtherHsetForgets(w: World, step: Step, u: Target)
    requires Enabled(w, step) && step.Hset? && u in w.redis && (u in w.dropped || u in w.overwritten)
    ensures Covered(Apply(w, step), u)
  {
    if u == step.t {
      HsetIsSafe(w, step.w, step.t, step.p, u);
    }
  }

  lemma {:induction false} EveryRunKeepsInv(start: World, steps: seq<Step>)
    requires Initial(start)
    ensures Run(start, steps).Some? ==> Inv(Run(start, steps).value)
  {
    if steps == [] {
      InitialInv(start);
    } else {
      hide Apply, Enabled, FactsInv, Covered;
      var n := |steps| - 1;
      EveryRunKeepsInv(start, steps[..n]);
      if Run(start, steps).Some? {
        var w := Run(start, steps[..n]).value;
        FactsKept(w, steps[n]);
        forall t ensures Covered(Apply(w, steps[n]), t) {
          CoveredKept(w, steps[n], t);
        }
      }
    }
  }

  lemma InitialInv(w: World)
    requires Initial(w)
    ensures Inv(w)
  {}

  // ---- Main results -----------------------------------------------------------------------------------

  /**
   * In every run: a pointer Redis shows is in Postgres, or its message or row is gone, or the target is dirty,
   * or a writer is between HSET and SADD, or a flusher has the id in hand, or since its last HSET an error dropped
   * the target, a clear nulled its columns or a repoint wrote an older message over them.
   */
  lemma NoPointerIsLost(start: World, steps: seq<Step>, t: Target)
    requires Initial(start) && Run(start, steps).Some? && t in Run(start, steps).value.redis
    ensures var w := Run(start, steps).value;
            || CaughtUp(w, t, w.redis[t]) || t in w.dirty || InHand(w, t, w.redis[t])
            || t in w.dropped || t in w.overwritten
  {
    EveryRunKeepsInv(start, steps);
    assert Covered(Run(start, steps).value, t);
  }

  lemma {:induction false} DroppedNeedsFailure(start: World, steps: seq<Step>)
    requires Initial(start)
    ensures Run(start, steps).Some? && (forall s <- steps :: !IsFailure(s)) ==> Run(start, steps).value.dropped == {}
    ensures Run(start, steps).Some? && (forall s <- steps :: !IsOverwrite(s)) ==>
              Run(start, steps).value.overwritten == {}
  {
    if steps == [] {
    } else {
      var n := |steps| - 1;
      DroppedNeedsFailure(start, steps[..n]);
      assert steps[n] in steps && forall s <- steps[..n] :: s in steps;
      if Run(start, steps).Some? { OnlyErrorsAndOverwritesRecord(Run(start, steps[..n]).value, steps[n]); }
      hide Apply, Enabled, IsFailure, IsOverwrite;
    }
  }

  lemma OnlyErrorsAndOverwritesRecord(w: World, step: Step)
    requires Enabled(w, step)
    ensures !IsFailure(step) ==> Apply(w, step).dropped <= w.dropped
    ensures !IsOverwrite(step) ==> Apply(w, step).overwritten <= w.overwritten
  {}

  predicate Quiescent(w: World) { w.dirty == {} && w.writing == map[] && w.flushing == map[] }

  /** Without errors and overwrites, once nothing is dirty or in hand, Postgres has every pointer that Redis shows. */
  lemma QuiescentMeansCaughtUp(start: World, steps: seq<Step>, t: Target)
    requires Initial(start) && Run(start, steps).Some? && t in Run(start, steps).value.redis
    requires (forall s <- steps :: Clean(s)) && Quiescent(Run(start, steps).value)
    ensures CaughtUp(Run(start, steps).value, t, Run(start, steps).value.redis[t])
  {
    NoPointerIsLost(start, steps, t);
    DroppedNeedsFailure(start, steps);
  }

  /** Of all steps only the end of a repoint, be it in time, late or a clear, ever lowers last_message_at. */
  lemma OnlyRepointLowers(w: World, step: Step, t: Target)
    requires Enabled(w, step) && t in w.db && w.db[t].at.Some?
    ensures t in Apply(w, step).db
    ensures AtLeast(Apply(w, step).db[t], w.db[t].at.value)
            || (step.RepointWrites? && w.repointing[step.r].t == t) || Overwrites(w, step, t)
  {}

  /**
   * What a flush leaves of a row it has read a pointer for: the pointer, whenever its message lives and the stored
   * time, if there is one, is not later; else the row as it was.  Rows without a pointer stay.
   */
  lemma FlushWrites(w: World, f: nat, t: Target)
    requires FactsInv(w) && Enabled(w, Flush(f)) && t in w.db
    ensures var v := Apply(w, Flush(f));
            var read := w.flushing[f].read;
            && t in v.db
            && v.db[t] == if t in read && read[t].msg in w.alive
                             && (w.db[t].at == None || w.db[t].at.value <= read[t].at)
                          then Row(Some(read[t].msg), read[t].author, Some(read[t].at)) else w.db[t]
  {
    assert FlushOk(w.facts, w.flushing[f]);
  }

  /** The same for one statement of the fallback. */
  lemma FlushOneWrites(w: World, f: nat, t: Target)
    requires Enabled(w, FlushOne(f, t))
    ensures var v := Apply(w, FlushOne(f, t));
            var p := w.flushing[f].read[t];
            v.db == if t in w.db && p.msg in w.alive && (w.db[t].at == None || w.db[t].at.value <= p.at)
                    then w.db[t := Row(Some(p.msg), p.author, Some(p.at))] else w.db
  {}

  /** The foreign key: no row, and no repoint about to write one, names a message that is gone. */
  ghost predicate NamesLiving(w: World) {
    && (forall t <- w.db :: w.db[t].msg.Some? ==> w.db[t].msg.value in w.alive)
    && (forall r <- w.repointing :: w.repointing[r].Picked? ==> w.repointing[r].m in w.alive)
  }

  lemma RowsNameLiving(w: World, step: Step)
    requires NamesLiving(w) && Enabled(w, step)
    ensures forall t <- Apply(w, step).db ::
              Apply(w, step).db[t].msg.Some? ==> Apply(w, step).db[t].msg.value in Apply(w, step).alive
  {
    hide Latest, LatestSeen, WritesNothing;
  }

  lemma PicksStayLiving(w: World, step: Step)
    requires NamesLiving(w) && Enabled(w, step)
    ensures forall r <- Apply(w, step).repointing ::
              Apply(w, step).repointing[r].Picked? ==> Apply(w, step).repointing[r].m in Apply(w, step).alive
  {
    hide UpdateBatch, UpdateOne, Latest, WritesNothing;
  }

  /** In every run no last-message column names a deleted message, whatever is deleted, flushed or repointed when. */
  lemma {:induction false} RowsAlwaysNameLiving(start: World, steps: seq<Step>)
    requires NamesLiving(start) && Run(start, steps).Some?
    ensures NamesLiving(Run(start, steps).value)
  {
    if steps == [] {
    } else {
      hide Apply, Enabled;
      var n := |steps| - 1;
      RowsAlwaysNameLiving(start, steps[..n]);
      RowsNameLiving(Run(start, steps[..n]).value, steps[n]);
      PicksStayLiving(Run(start, steps[..n]).value, steps[n]);
    }
  }

  /** A message that r has picked is the latest of those it has seen that still live. */
  predicate PickOk(w: World, rp: Repointing) {
    rp.Picked? ==>
      && rp.m in w.alive && rp.m in rp.seen && rp.m in w.facts && w.facts[rp.m].target == rp.t
      && forall n <- w.alive :: n in rp.seen && n in w.facts && w.facts[n].target == rp.t
           ==> w.facts[n].at <= w.facts[rp.m].at
  }

  /** What a repoint has seen has been posted. */
  ghost predicate PicksOk(w: World) {
    && w.alive <= w.facts.Keys
    && (forall r <- w.repointing :: PickOk(w, w.repointing[r]))
    && (forall r <- w.repointing :: !w.repointing[r].Nulling? ==> w.repointing[r].seen <= w.facts.Keys)
  }

  lemma PickKept(w: World, step: Step, r: nat)
    requires PicksOk(w) && Enabled(w, step) && r in Apply(w, step).repointing
    ensures var v := Apply(w, step);
            PickOk(v, v.repointing[r]) && (!v.repointing[r].Nulling? ==> v.repointing[r].seen <= v.facts.Keys)
  {
    assert r in w.repointing ==> PickOk(w, w.repointing[r]);
    if step.RepointPicks? && step.r == r {
      hide UpdateBatch, UpdateOne, Latest, WritesNothing;
    } else if !step.Insert? && !step.Delete? && !step.RepointBegins? {
      OthersKeepPicks(w, step, r);
      hide Apply, Enabled;
    } else {
      hide UpdateBatch, UpdateOne, Latest, WritesNothing, LatestSeen;
    }
  }

  lemma OthersKeepPicks(w: World, step: Step, r: nat)
    requires Enabled(w, step) && !step.Insert? && !step.Delete? && !step.RepointBegins?
    requires r in Apply(w, step).repointing && !(step.RepointPicks? && step.r == r)
    ensures var v := Apply(w, step);
            && v.alive == w.alive && v.facts == w.facts
            && r in w.repointing && (v.repointing[r] == w.repointing[r] || v.repointing[r].Nulling?)
  {
    hide UpdateBatch, UpdateOne, Latest, LatestSeen;
  }

  lemma {:induction false} EveryRunKeepsPicks(start: World, steps: seq<Step>)
    requires PicksOk(start) && Run(start, steps).Some?
    ensures PicksOk(Run(start, steps).value)
  {
    if steps == [] {
    } else {
      var n := |steps| - 1;
      EveryRunKeepsPicks(start, steps[..n]);
      var w := Run(start, steps[..n]).value;
      PointersGrow(w, steps[n]);
      hide Apply, Enabled, PickOk;
      forall r <- Apply(w, steps[n]).repointing ensures PickOk(Apply(w, steps[n]), Apply(w, steps[n]).repointing[r])
        && (!Apply(w, steps[n]).repointing[r].Nulling? ==>
              Apply(w, steps[n]).repointing[r].seen <= Apply(w, steps[n]).facts.Keys)
      {
        PickKept(w, steps[n], r);
      }
    }
  }

  lemma PointersGrow(w: World, step: Step)
    requires w.alive <= w.facts.Keys && Enabled(w, step)
    ensures Apply(w, step).alive <= Apply(w, step).facts.Keys
  {
    hide UpdateBatch, UpdateOne, Latest, WritesNothing, LatestSeen;
  }

  /** A repoint writes an old message only if a later one of the target has been posted since its snapshot. */
  lemma LateNeedsNewer(start: World, steps: seq<Step>, r: nat)
    requires PicksOk(start) && Run(start, steps).Some? && Enabled(Run(start, steps).value, RepointIsLate(r))
    ensures var w := Run(start, steps).value;
            var rp := w.repointing[r];
            exists n :: n in w.alive && n !in rp.seen && n in w.facts && w.facts[n].target == rp.t
                        && rp.m in w.facts && w.facts[n].at > w.facts[rp.m].at
  {
    EveryRunKeepsPicks(start, steps);
    assert PickOk(Run(start, steps).value, Run(start, steps).value.repointing[r]);
  }

  /** Without a foreign-key conflict the columns are nulled only if all messages that the repoint has seen are gone. */
  lemma ClearNeedsNone(start: World, steps: seq<Step>, r: nat)
    requires PicksOk(start) && Run(start, steps).Some? && Enabled(Run(start, steps).value, ClearBegins(r, false))
    ensures var w := Run(start, steps).value;
            var rp := w.repointing[r];
            && !rp.Nulling?
            && (rp.t in w.db ==> forall n <- w.alive :: n in rp.seen ==> n in w.facts && w.facts[n].target != rp.t)
  {
    EveryRunKeepsPicks(start, steps);
    assert PickOk(Run(start, steps).value, Run(start, steps).value.repointing[r]);
  }

  // ---- What an error, a clear or a late repoint costs ---------------------------------------------------

  /** Nobody is going to act on the target any more. */
  ghost predicate Idle(w: World, t: Target) {
    t in w.redis ==> t !in w.dirty && !InHand(w, t, w.redis[t])
  }

  ghost predicate Settled(w: World, t: Target) { t in w.redis ==> CaughtUp(w, t, w.redis[t]) }

  /** However the system goes on without further errors and overwrites: once the target is idle, Postgres has it. */
  ghost predicate WillSettle(w: World, t: Target) {
    forall steps :: Run(w, steps).Some? && (forall s <- steps :: Clean(s)) && Idle(Run(w, steps).value, t)
      ==> Settled(Run(w, steps).value, t)
  }

  lemma {:induction false} CleanRunKeepsSafe(w: World, steps: seq<Step>, t: Target)
    requires FactsInv(w) && Safe(w, t) && (forall s <- steps :: Clean(s)) && Run(w, steps).Some?
    ensures FactsInv(Run(w, steps).value) && Safe(Run(w, steps).value, t)
  {
    if steps == [] {
    } else {
      hide Apply, Enabled, FactsInv, Safe;
      var n := |steps| - 1;
      assert steps[n] in steps && forall s <- steps[..n] :: s in steps;
      CleanRunKeepsSafe(w, steps[..n], t);
      FactsKept(Run(w, steps[..n]).value, steps[n]);
      SafeKept(Run(w, steps[..n]).value, steps[n], t);
    }
  }

  /** Being safe is exactly what it takes for the target's pointer to arrive. */
  lemma SafeExactlyWhenItWillSettle(w: World, t: Target)
    requires FactsInv(w)
    ensures Safe(w, t) <==> WillSettle(w, t)
  {
    if Safe(w, t) {
      forall steps | Run(w, steps).Some? && (forall s <- steps :: Clean(s)) && Idle(Run(w, steps).value, t)
        ensures Settled(Run(w, steps).value, t)
      {
        CleanRunKeepsSafe(w, steps, t);
      }
    } else {
      assert Run(w, []) == Some(w);
      assert Idle(w, t) && !Settled(w, t);
    }
  }

  ghost predicate HeldByOther(w: World, f: nat, t: Target, p: Pointer) {
    exists g :: g in w.flushing && g != f && Holds(w.flushing[g], t, p)
  }

  ghost predicate WrittenByOther(w: World, x: nat, t: Target) {
    exists y :: y in w.writing && y != x && w.writing[y] == t
  }

  /**
   * After SREM a flusher that gives up on some ids costs the pointer of t exactly when t is among them and Postgres
   * is behind, t is not dirty again, nobody is writing it, and no other flusher holds it.
   */
  lemma DropIsHarmlessExactlyWhen(w: World, f: nat, ts: set<Target>, t: Target)
    requires FactsInv(w) && Safe(w, t) && Enabled(w, Drops(f, ts)) && t in w.redis
    ensures WillSettle(Apply(w, Drops(f, ts)), t) <==>
            || t !in ts || CaughtUp(w, t, w.redis[t]) || t in w.dirty
            || BeingWritten(w, t) || HeldByOther(w, f, t, w.redis[t])
  {
    var v := Apply(w, Drops(f, ts));
    FactsKept(w, Drops(f, ts));
    SafeExactlyWhenItWillSettle(v, t);
    hide FactsInv, WillSettle;
    DropLeavesHolders(w, f, ts, t);
    assert BeingWritten(v, t) <==> BeingWritten(w, t);
  }

  lemma DropLeavesHolders(w: World, f: nat, ts: set<Target>, t: Target)
    requires Enabled(w, Drops(f, ts)) && t in w.redis
    ensures Held(Apply(w, Drops(f, ts)), t, w.redis[t]) <==>
            HeldByOther(w, f, t, w.redis[t]) || (t !in ts && Holds(w.flushing[f], t, w.redis[t]))
  {
    var v := Apply(w, Drops(f, ts));
    var p := w.redis[t];
    assert Holds(v.flushing[f], t, p) <==> t !in ts && Holds(w.flushing[f], t, p);
    assert forall g :: g != f ==> (g in v.flushing <==> g in w.flushing);
    assert forall g <- w.flushing :: g != f ==> v.flushing[g] == w.flushing[g];
  }

  /** An SREM that fails although it took effect costs exactly the pointers it took out of the set unseen. */
  lemma SremFailureIsHarmlessExactlyWhen(w: World, f: nat, executed: set<Target>, t: Target)
    requires FactsInv(w) && Safe(w, t) && Enabled(w, SremFails(f, executed)) && t in w.redis
    ensures WillSettle(Apply(w, SremFails(f, executed)), t) <==>
            t !in executed || CaughtUp(w, t, w.redis[t]) || InHand(w, t, w.redis[t])
  {
    var v := Apply(w, SremFails(f, executed));
    var p := w.redis[t];
    FactsKept(w, SremFails(f, executed));
    SafeExactlyWhenItWillSettle(v, t);
    hide FactsInv, WillSettle;
    assert forall g <- w.flushing :: Holds(w.flushing[g], t, p) ==> g in v.flushing && v.flushing[g] == w.flushing[g];
    assert InHand(v, t, p) <==> InHand(w, t, p);
  }

  /** A writer that fails between HSET and SADD costs its pointer exactly when nobody else will bring it over. */
  lemma WriterFailureIsHarmlessExactlyWhen(w: World, x: nat, t: Target)
    requires FactsInv(w) && Enabled(w, WriterFails(x)) && w.writing[x] == t && t in w.redis
    ensures WillSettle(Apply(w, WriterFails(x)), t) <==>
            CaughtUp(w, t, w.redis[t]) || t in w.dirty || WrittenByOther(w, x, t) || Held(w, t, w.redis[t])
  {
    var v := Apply(w, WriterFails(x));
    FactsKept(w, WriterFails(x));
    SafeExactlyWhenItWillSettle(v, t);
    hide FactsInv, WillSettle;
    assert forall y :: y in v.writing && v.writing[y] == t <==> y in w.writing && y != x && w.writing[y] == t;
    assert BeingWritten(v, t) <==> WrittenByOther(w, x, t);
  }

  /**
   * Without any error, a clear that runs late costs the pointer of its target exactly when that names a living
   * message of an existing row and is neither dirty nor in hand.
   */
  lemma ClearIsHarmlessExactlyWhen(w: World, r: nat, t: Target)
    requires FactsInv(w) && Enabled(w, Clear(r)) && w.repointing[r].t == t && t in w.redis
    ensures WillSettle(Apply(w, Clear(r)), t) <==>
            t !in w.db || w.redis[t].msg !in w.alive || t in w.dirty || InHand(w, t, w.redis[t])
  {
    var v := Apply(w, Clear(r));
    FactsKept(w, Clear(r));
    SafeExactlyWhenItWillSettle(v, t);
    hide FactsInv, WillSettle;
    assert v.writing == w.writing && v.flushing == w.flushing;
    assert InHand(v, t, w.redis[t]) <==> InHand(w, t, w.redis[t]);
  }

  /**
   * Without any error, a repoint that writes an older message than the latest costs the pointer of its target exactly
   * when that names a living message newer than the one written and is neither dirty nor in hand.
   */
  lemma LateRepointIsHarmlessExactlyWhen(w: World, r: nat, t: Target)
    requires FactsInv(w) && Enabled(w, RepointIsLate(r)) && w.repointing[r].t == t && t in w.redis
    ensures WillSettle(Apply(w, RepointIsLate(r)), t) <==>
            || w.redis[t].msg !in w.alive || w.redis[t].at <= w.facts[w.repointing[r].m].at
            || t in w.dirty || InHand(w, t, w.redis[t])
  {
    var v := Apply(w, RepointIsLate(r));
    FactsKept(w, RepointIsLate(r));
    SafeExactlyWhenItWillSettle(v, t);
    assert RepointOk(w.facts, w.repointing[r]);
    hide FactsInv, WillSettle, Latest;
    assert v.writing == w.writing && v.flushing == w.flushing;
    assert InHand(v, t, w.redis[t]) <==> InHand(w, t, w.redis[t]);
  }

  predicate NoFailures(steps: seq<Step>) { forall s <- steps :: !IsFailure(s) }

  /** No error and no clear. */
  predicate Quiet(steps: seq<Step>) { forall s <- steps :: !IsFailure(s) && !s.Clear? }

  lemma QuietHasNoFailures(steps: seq<Step>)
    requires Quiet(steps)
    ensures NoFailures(steps)
  {}

  /** A message is posted and its pointer written to Redis. */
  lemma Publish(start: World, before: seq<Step>, u: World, t: Target, m: MsgId, fact: Fact)
    returns (steps: seq<Step>, w: World)
    requires Run(start, before) == Some(u) && Quiet(before) && 0 !in u.writing
    requires m !in u.facts && fact.target == t
    ensures Run(start, steps) == Some(w) && Quiet(steps)
    ensures w.db == u.db && w.alive == u.alive + {m} && w.flushing == u.flushing && w.repointing == u.repointing
    ensures w.redis == u.redis[t := Pointer(m, fact.author, fact.at)] && w.dirty == u.dirty + {t}
    ensures w.writing == u.writing && w.facts == u.facts[m := fact]
  {
    steps, w := before, u;
    hide Run, Quiet;
    steps, w := Extend(start, steps, w, Insert(m, fact));
    steps, w := Extend(start, steps, w, Hset(0, t, Pointer(m, fact.author, fact.at)));
    steps, w := Extend(start, steps, w, Sadd(0));
  }

  /** A flusher takes the dirty ids over. */
  lemma TakeDirty(start: World, before: seq<Step>, u: World) returns (steps: seq<Step>, w: World)
    requires Run(start, before) == Some(u) && Quiet(before) && u.flushing == map[]
    ensures Run(start, steps) == Some(w) && Quiet(steps)
    ensures w == u.(dirty := {}, flushing := map[0 := Working(u.dirty, map[])])
  {
    steps, w := before, u;
    hide Run, Quiet;
    steps, w := Extend(start, steps, w, Smembers(0));
    steps, w := Extend(start, steps, w, Srem(0));
  }

  /** An error after SREM loses a newer pointer: the run ends quiescent with Postgres behind a living message. */
  lemma FailureLosesPointer(start: World, t: Target, m: MsgId, fact: Fact) returns (steps: seq<Step>, w: World)
    requires Initial(start) && m !in start.facts && fact.target == t
    requires t in start.db && !AtLeast(start.db[t], fact.at)
    ensures Run(start, steps) == Some(w) && Quiescent(w) && t in w.redis && !CaughtUp(w, t, w.redis[t])
  {
    StartsThere(start);
    assert start.flushing == map[] && start.dirty == {} && start.writing == map[];
    hide Run, Quiet, Initial;
    steps, w := Publish(start, [], start, t, m, fact);
    steps, w := TakeDirty(start, steps, w);
    steps, w := Extend(start, steps, w, Drops(0, {t}));
    steps, w := Extend(start, steps, w, Finish(0));
  }

  /** It reads and writes the one id it took. */
  lemma FlushMessage(start: World, before: seq<Step>, u: World, t: Target) returns (steps: seq<Step>, w: World)
    requires Run(start, before) == Some(u) && Quiet(before)
    requires u.flushing == map[0 := Working({t}, map[])] && t in u.redis && t in u.db
    ensures Run(start, steps) == Some(w) && Quiet(steps)
    ensures w.flushing == map[] && w.dirty == u.dirty && w.writing == u.writing
    ensures w.redis == u.redis && w.alive == u.alive && w.facts == u.facts && w.repointing == u.repointing && t in w.db
  {
    hide Run, UpdateBatch, Quiet;
    steps, w := Extend(start, before, u, Hgetall(0, t));
    BatchKeepsRows(w.db, w.alive, w.flushing[0].read);
    steps, w := Extend(start, steps, w, Flush(0));
    steps, w := Extend(start, steps, w, Finish(0));
  }

  lemma BatchKeepsRows(db: Db, alive: set<MsgId>, payload: map<Target, Pointer>)
    ensures UpdateBatch(db, alive, payload).Keys == db.Keys
  {}

  /** While a repoint of t is under way the next message of t is posted, and its pointer is flushed. */
  lemma PublishAndFlush(start: World, before: seq<Step>, u: World, t: Target, m: MsgId, fact: Fact)
    returns (steps: seq<Step>, w: World)
    requires Run(start, before) == Some(u) && Quiet(before)
    requires u.writing == map[] && u.flushing == map[] && u.dirty == {}
    requires m !in u.facts && fact.target == t && t in u.db
    ensures Run(start, steps) == Some(w) && Quiet(steps)
    ensures Quiescent(w) && w.repointing == u.repointing && t in w.db && w.alive == u.alive + {m}
    ensures t in w.redis && w.redis[t] == Pointer(m, fact.author, fact.at)
    ensures w.facts == u.facts[m := fact]
  {
    hide Run, Quiet;
    steps, w := Publish(start, before, u, t, m, fact);
    assert w.dirty == {t};
    steps, w := TakeDirty(start, steps, w);
    steps, w := FlushMessage(start, steps, w, t);
  }

  /** What the losing runs start from. */
  ghost predicate Ready(start: World, t: Target, m: MsgId, fact: Fact) {
    && Initial(start) && start.repointing == map[]
    && m !in start.facts && fact.target == t && t in start.db
  }

  /**
   * No error at all is needed: a repoint finds no message, the next message is posted and flushed, and then the
   * clear of that repoint runs.  The run ends quiescent with Postgres behind a living message.
   */
  lemma ClearLosesPointer(start: World, t: Target, m: MsgId, fact: Fact) returns (steps: seq<Step>, w: World)
    requires Ready(start, t, m, fact) && NoMessages(start, t)
    ensures Run(start, steps) == Some(w) && NoFailures(steps)
    ensures Quiescent(w) && t in w.redis && !CaughtUp(w, t, w.redis[t])
  {
    StartsThere(start);
    assert start.redis == map[] && start.flushing == map[] && start.dirty == {} && start.writing == map[];
    hide Run, Quiet, NoFailures, Initial;
    steps, w := Extend(start, [], start, RepointBegins(0, t));
    steps, w := Extend(start, steps, w, ClearBegins(0, false));
    hide NoMessages;
    steps, w := PublishAndFlush(start, steps, w, t, m, fact);
    QuietHasNoFailures(steps);
    steps, w := Extend(start, steps, w, Clear(0));
  }

  /**
   * Nor is a clear: the snapshot of a repoint has an old message as its latest, a newer one is posted and flushed
   * while the statement waits, and then it writes the old one.
   */
  lemma LateRepointLosesPointer(start: World, t: Target, k: MsgId, m: MsgId, fact: Fact)
    returns (steps: seq<Step>, w: World)
    requires Ready(start, t, m, fact) && Latest(start, t, k) && start.facts[k].at < fact.at
    ensures Run(start, steps) == Some(w) && Quiet(steps) && w.repointing == map[]
    ensures Quiescent(w) && t in w.redis && !CaughtUp(w, t, w.redis[t])
  {
    StartsThere(start);
    assert start.redis == map[] && start.flushing == map[] && start.dirty == {} && start.writing == map[];
    hide Run, Quiet, Initial;
    steps, w := Extend(start, [], start, RepointBegins(0, t));
    steps, w := PublishAndFlush(start, steps, w, t, m, fact);
    steps, w := Extend(start, steps, w, RepointPicks(0, k));
    assert m in w.alive && w.facts[m].at > w.facts[k].at;
    steps, w := Extend(start, steps, w, RepointIsLate(0));
  }

  /** What the columns of a target should say: its latest living message, or nothing if it has none. */
  ghost predicate NamesLatest(w: World, t: Target, row: Row) {
    if NoMessages(w, t) then row == Row(None, None, None)
    else
      && row.msg.Some? && row.msg.value in w.alive && row.msg.value in w.facts
      && w.facts[row.msg.value] == Fact(t, row.author, w.facts[row.msg.value].at)
      && row.at == Some(w.facts[row.msg.value].at)
      && (forall n <- w.alive :: n in w.facts && w.facts[n].target == t ==> w.facts[n].at <= w.facts[row.msg.value].at)
  }

  /** Among finitely many messages of a target one is the latest. */
  lemma {:induction false} LatestExists(w: World, t: Target, ms: set<MsgId>) returns (m: MsgId)
    requires ms != {} && forall n <- ms :: n in w.facts
    ensures m in ms && forall n <- ms :: w.facts[n].at <= w.facts[m].at
    decreases ms
  {
    m :| m in ms;
    if ms != {m} {
      var n := LatestExists(w, t, ms - {m});
      assert ms == (ms - {m}) + {m};
      if w.facts[m].at <= w.facts[n].at { m := n; }
    }
  }

  /** The repoint of t changed nothing but its row. */
  ghost predicate OnlyRowChanged(u: World, w: World, t: Target) {
    && w == u.(db := w.db, overwritten := w.overwritten)
    && t in w.db && forall x <- u.db :: x in w.db && (x != t ==> w.db[x] == u.db[x])
  }

  lemma RepointPicksAndWrites(start: World, before: seq<Step>, u: World, t: Target, r: nat, m: MsgId)
    returns (steps: seq<Step>, w: World)
    requires Run(start, before) == Some(u) && t in u.db && r !in u.repointing && Latest(u, t, m)
    ensures before <= steps && Run(start, steps) == Some(w) && OnlyRowChanged(u, w, t)
    ensures w.db[t] == Row(Some(m), u.facts[m].author, Some(u.facts[m].at))
  {
    hide Run, Quiet, NoFailures;
    steps, w := Extend(start, before, u, RepointBegins(r, t));
    steps, w := Extend(start, steps, w, RepointPicks(r, m));
    steps, w := Extend(start, steps, w, RepointWrites(r));
    assert w.repointing == u.repointing;
  }

  lemma RepointClears(start: World, before: seq<Step>, u: World, t: Target, r: nat)
    returns (steps: seq<Step>, w: World)
    requires Run(start, before) == Some(u) && t in u.db && r !in u.repointing && NoMessages(u, t)
    ensures before <= steps && Run(start, steps) == Some(w) && OnlyRowChanged(u, w, t)
    ensures w.db[t] == Row(None, None, None)
  {
    hide Run, Quiet, NoFailures;
    steps, w := Extend(start, before, u, RepointBegins(r, t));
    steps, w := Extend(start, steps, w, ClearBegins(r, false));
    steps, w := Extend(start, steps, w, Clear(r));
    assert w.repointing == u.repointing;
  }

  /**
   * What a repoint is for: from any state, one that runs without anything in between leaves the columns of its target
   * at the latest living message, or nulls them if there is none, and changes no other row.
   */
  lemma RepointRestores(start: World, before: seq<Step>, u: World, t: Target, r: nat)
    returns (steps: seq<Step>, w: World)
    requires Run(start, before) == Some(u) && t in u.db && r !in u.repointing && u.alive <= u.facts.Keys
    ensures before <= steps && Run(start, steps) == Some(w) && OnlyRowChanged(u, w, t) && NamesLatest(w, t, w.db[t])
  {
    var ms := set n | n in u.alive && u.facts[n].target == t;
    assert forall n <- u.alive :: u.facts[n].target == t <==> n in ms;
    hide Run;
    if ms == {} {
      steps, w := RepointClears(start, before, u, t, r);
    } else {
      var m := LatestExists(u, t, ms);
      steps, w := RepointPicksAndWrites(start, before, u, t, r, m);
    }
  }

  /**
   * After the hard delete of a message and the repoint behind it, the columns of its target name the latest of the
   * messages that remain, or nothing if none does.
   */
  lemma DeleteThenRepoint(start: World, before: seq<Step>, u: World, m: MsgId, r: nat)
    returns (steps: seq<Step>, w: World)
    requires Run(start, before) == Some(u) && u.alive <= u.facts.Keys && m in u.alive && u.facts[m].target in u.db
    requires r !in u.repointing && forall x <- u.repointing :: u.repointing[x].Picked? ==> u.repointing[x].m != m
    ensures before <= steps && Run(start, steps) == Some(w) && w.alive == u.alive - {m} && w.facts == u.facts
    ensures u.facts[m].target in w.db && NamesLatest(w, u.facts[m].target, w.db[u.facts[m].target])
  {
    hide Run, Quiet, NoFailures, NamesLatest;
    steps, w := Extend(start, before, u, Delete(m));
    steps, w := RepointRestores(start, steps, w, u.facts[m].target, r);
  }

  lemma StartsThere(start: World)
    ensures Run(start, []) == Some(start) && Quiet([])
  {}

  lemma Extend(start: World, steps: seq<Step>, w: World, step: Step) returns (steps': seq<Step>, w': World)
    requires Run(start, steps) == Some(w) && Enabled(w, step)
    ensures w' == Apply(w, step) && Run(start, steps') == Some(w') && steps' == steps + [step]
    ensures NoFailures(steps) && !IsFailure(step) ==> NoFailures(steps')
    ensures Quiet(steps) && !IsFailure(step) && !step.Clear? ==> Quiet(steps')
  {
    steps', w' := steps + [step], Apply(w, step);
    assert steps'[..|steps|] == steps;
  }
}
