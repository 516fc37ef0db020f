/**
 * The resumable backfill loop, scripts/search/backfill-opensearch-messages.ts, over a table that does not change:
 * row limit, counters, checkpoint, restarts.
 */
module BackfillDriver {
  import opened Basics
  import opened BackfillPagination

  datatype Config = Config(
    batchSize: int, limit: int, order: Order, since: Option<int>, until: Option<int>, dryRun: bool) {
    function SqlQuery(): Query { Query(batchSize, order, since, until) }
  }

  /** What the checkpoint file holds. */
  datatype Progress = Progress(cursor: Row, scanned: int, indexed: int, failures: int)

  const NIL_UUID := "00000000-0000-0000-0000-000000000000"
  const LAST_INSTANT := 253402300799999000

  /** `--batch-size`: absent, not a number and 0 all mean 100. */
  function BatchSize(arg: Option<int>): (size: int)
    ensures 50 <= size <= 2000
    ensures arg.Some? && 50 <= arg.value <= 2000 ==> size == arg.value
    ensures arg.None? || arg.value == 0 ==> size == 100
  {
    Min(2000, Max(50, if arg.None? || arg.value == 0 then 100 else arg.value))
  }

  /** Without a readable checkpoint the run starts from here. */
  function Fresh(cfg: Config): Progress {
    var us := if cfg.order == Asc then (if cfg.since.Some? then cfg.since.value else 0)
              else if cfg.until.Some? then cfg.until.value else LAST_INSTANT;
    Progress(Row(us, NIL_UUID), 0, 0, 0)
  }

  /** Cuts a page that would pass the limit; the second result is the new count of scanned rows. */
  function Truncate(cfg: Config, scanned: int, page: seq<Row>): (seq<Row>, int) {
    var total := scanned + |page|;
    if cfg.limit > 0 && total > cfg.limit
    then (page[..Max(0, |page| - (total - cfg.limit))], cfg.limit)
    else (page, total)
  }

  /** Crashed: the cut left no row, and reading the last one throws before anything is saved. */
  datatype Outcome = Exhausted | Crashed | Processed(progress: Progress, batch: seq<Row>)

  function NextBatch(table: seq<Row>, cfg: Config, p: Progress, bulkOk: bool): Outcome {
    var page := PageFromCursor(table, p.cursor, cfg.SqlQuery());
    if page == [] then Exhausted
    else
      var (batch, scanned) := Truncate(cfg, p.scanned, page);
      var counted := cfg.dryRun || batch == [] || bulkOk;
      match NextCursorFromPage(batch)
      case None => Crashed
      case Some(last) =>
        Processed(Progress(last, scanned, if counted then p.indexed + |batch| else p.indexed,
                           if counted then p.failures else p.failures + |batch|), batch)
  }

  /** Independent of batches: the rows past the cursor, up to what the limit still allows. */
  function Remaining(table: seq<Row>, cfg: Config, p: Progress): seq<Row> {
    var s := Suffix(table, p.cursor, cfg.SqlQuery());
    if cfg.limit > 0 then s[..Max(0, Min(|s|, cfg.limit - p.scanned))] else s
  }

  predicate AtLimit(cfg: Config, p: Progress) { cfg.limit > 0 && p.scanned >= cfg.limit }

  /** The loop ends when nothing is left, and crashes exactly when it is at its limit with rows left. */
  lemma BatchVerdict(table: seq<Row>, cfg: Config, p: Progress, bulkOk: bool)
    requires cfg.batchSize >= 1
    ensures var o := NextBatch(table, cfg, p, bulkOk);
            && (o == Exhausted <==> Suffix(table, p.cursor, cfg.SqlQuery()) == [])
            && (o == Crashed <==> AtLimit(cfg, p) && Suffix(table, p.cursor, cfg.SqlQuery()) != [])
  {
    PageIsPrefix(table, p.cursor, cfg.SqlQuery());
    hide Suffix, PageFromCursor;
  }

  /** One batch takes the front off the remaining rows, whatever the batch size is and whether indexing works. */
  lemma BatchAdvances(table: seq<Row>, cfg: Config, p: Progress, bulkOk: bool)
    requires Distinct(table) && cfg.batchSize >= 1 && NextBatch(table, cfg, p, bulkOk).Processed?
    ensures var o := NextBatch(table, cfg, p, bulkOk);
            && o.batch != [] && o.progress.cursor == o.batch[|o.batch| - 1]
            && Remaining(table, cfg, p) == o.batch + Remaining(table, cfg, o.progress)
            && Counted(cfg, p, o.progress, |o.batch|, bulkOk)
  {
    var q := cfg.SqlQuery();
    var s := Suffix(table, p.cursor, q);
    var batch := Truncate(cfg, p.scanned, PageFromCursor(table, p.cursor, q)).0;
    PageIsPrefix(table, p.cursor, q);
    SuffixAfterPrefix(table, p.cursor, q, |batch|);
    hide Suffix, PageFromCursor;
    assert batch == s[..|batch|];
  }

  /** n more rows are scanned, within the limit; they count as failures if the bulk request failed, else as indexed. */
  predicate Counted(cfg: Config, p: Progress, next: Progress, n: nat, bulkOk: bool) {
    && next.scanned == p.scanned + n
    && (cfg.limit > 0 ==> next.scanned <= cfg.limit && p.scanned < cfg.limit)
    && next.failures == (if bulkOk || cfg.dryRun then p.failures else p.failures + n)
    && next.indexed + next.failures == p.indexed + p.failures + n
  }

  lemma AtLimitNothingRemains(table: seq<Row>, cfg: Config, p: Progress)
    requires AtLimit(cfg, p) || Suffix(table, p.cursor, cfg.SqlQuery()) == []
    ensures Remaining(table, cfg, p) == []
  {}

  /** The key of the last row processed. */
  function LastCursor(start: Progress, processed: seq<Row>): Row {
    if processed == [] then start.cursor else processed[|processed| - 1]
  }

  predicate Splits(all: seq<Row>, done: seq<Row>, rest: seq<Row>) { all == done + rest }

  /** Having started at `start` and processed these rows, the loop is at `p`. */
  ghost predicate Follows(table: seq<Row>, cfg: Config, start: Progress, p: Progress, processed: seq<Row>) {
    && Splits(Remaining(table, cfg, start), processed, Remaining(table, cfg, p))
    && p.cursor == LastCursor(start, processed)
    && p.scanned == start.scanned + |processed|
    && p.indexed + p.failures == start.indexed + start.failures + |processed|
    && (processed == [] ==> p == start)
    && (processed != [] ==> !AtLimit(cfg, start))
  }

  lemma BatchFollows(table: seq<Row>, cfg: Config, start: Progress, p: Progress, processed: seq<Row>, bulkOk: bool)
    requires Distinct(table) && cfg.batchSize >= 1 && Follows(table, cfg, start, p, processed)
    requires NextBatch(table, cfg, p, bulkOk).Processed?
    ensures var o := NextBatch(table, cfg, p, bulkOk);
            && Follows(table, cfg, start, o.progress, processed + o.batch)
            && |Remaining(table, cfg, o.progress)| < |Remaining(table, cfg, p)|
  {
    hide *;
    var o := NextBatch(table, cfg, p, bulkOk);
    BatchAdvances(table, cfg, p, bulkOk);
    FollowsFacts(table, cfg, start, p, processed);
    CountedFacts(cfg, p, o.progress, |o.batch|, bulkOk);
    var rest := Remaining(table, cfg, o.progress);
    Chain(Remaining(table, cfg, start), processed, Remaining(table, cfg, p), o.batch, rest);
    LastOfJoin(start, processed, o.batch);
    NowFollows(table, cfg, start, o.progress, processed + o.batch);
  }

  lemma CountedFacts(cfg: Config, p: Progress, next: Progress, n: nat, bulkOk: bool)
    requires Counted(cfg, p, next, n, bulkOk)
    ensures next.scanned == p.scanned + n && !AtLimit(cfg, p)
    ensures next.indexed + next.failures == p.indexed + p.failures + n
  {}

  lemma NowFollows(table: seq<Row>, cfg: Config, start: Progress, p: Progress, processed: seq<Row>)
    requires Splits(Remaining(table, cfg, start), processed, Remaining(table, cfg, p))
    requires p.cursor == LastCursor(start, processed)
    requires p.scanned == start.scanned + |processed|
    requires p.indexed + p.failures == start.indexed + start.failures + |processed|
    requires processed != [] && !AtLimit(cfg, start)
    ensures Follows(table, cfg, start, p, processed)
  {}

  lemma Chain(all: seq<Row>, done: seq<Row>, left: seq<Row>, batch: seq<Row>, rest: seq<Row>)
    requires Splits(all, done, left) && left == batch + rest && batch != []
    ensures Splits(all, done + batch, rest) && |rest| < |left| && done + batch != []
  {}

  lemma LastOfJoin(start: Progress, done: seq<Row>, batch: seq<Row>)
    requires batch != []
    ensures LastCursor(start, done + batch) == batch[|batch| - 1]
  {}

  lemma JoinBatch(done: seq<Row>, batch: seq<Row>, rest: seq<Row>)
    requires batch != []
    ensures done + (batch + rest) == done + batch + rest
  {}

  lemma FollowsFacts(table: seq<Row>, cfg: Config, start: Progress, p: Progress, processed: seq<Row>)
    requires Follows(table, cfg, start, p, processed)
    ensures Splits(Remaining(table, cfg, start), processed, Remaining(table, cfg, p))
    ensures processed == [] ==> p == start
    ensures processed != [] ==> !AtLimit(cfg, start)
    ensures Remaining(table, cfg, p) == [] ==> processed == Remaining(table, cfg, start)
    ensures p.cursor == LastCursor(start, processed)
    ensures p.scanned == start.scanned + |processed|
    ensures p.indexed + p.failures == start.indexed + start.failures + |processed|
  {}

  /** Failures are counted for failed bulk requests only, and for each of them. */
  ghost predicate BlameOk(cfg: Config, start: Progress, p: Progress, bulkOk: nat -> bool) {
    && (cfg.dryRun || (forall i :: bulkOk(i)) ==> p.failures == start.failures)
    && (!cfg.dryRun && (forall i :: !bulkOk(i)) ==> p.indexed == start.indexed)
  }

  lemma BatchBlames(table: seq<Row>, cfg: Config, start: Progress, p: Progress, bulkOk: nat -> bool, i: nat)
    requires BlameOk(cfg, start, p, bulkOk) && NextBatch(table, cfg, p, bulkOk(i)).Processed?
    ensures BlameOk(cfg, start, NextBatch(table, cfg, p, bulkOk(i)).progress, bulkOk)
  {
    hide PageFromCursor, Truncate;
  }

  /** The body of the loop; one call is one turn. */
  method ProcessBatch(table: seq<Row>, cfg: Config, p: Progress, bulkOk: bool) returns (o: Outcome)
    ensures o == NextBatch(table, cfg, p, bulkOk)
  {
    var batch := PageFromCursor(table, p.cursor, cfg.SqlQuery());
    if batch == [] {
      return Exhausted;
    }
    var scanned, indexed, failures := p.scanned, p.indexed, p.failures;
    scanned := scanned + |batch|;
    if cfg.limit > 0 && scanned > cfg.limit {
      batch := batch[..Max(0, |batch| - (scanned - cfg.limit))];
      scanned := cfg.limit;
    }
    if !cfg.dryRun && |batch| > 0 {
      if bulkOk {
        indexed := indexed + |batch|;
      } else {
        failures := failures + |batch|;
      }
    } else {
      indexed := indexed + |batch|;
    }
    if batch == [] {
      return Crashed;
    }
    return Processed(Progress(batch[|batch| - 1], scanned, indexed, failures), batch);
  }

  /**
   * The loop of one process.  `bulkOk(i)` says whether the bulk request of batch i succeeds.  It crashes exactly when
   * it is started at its limit with rows left; otherwise it processes exactly the remaining rows, in order.
   */
  method Backfill(table: seq<Row>, cfg: Config, start: Progress, bulkOk: nat -> bool)
    returns (p: Progress, processed: seq<Row>, crashed: bool)
    requires Distinct(table) && cfg.batchSize >= 1
    ensures crashed <==> AtLimit(cfg, start) && Suffix(table, start.cursor, cfg.SqlQuery()) != []
    ensures processed == Remaining(table, cfg, start)
    ensures p.cursor == LastCursor(start, processed)
    ensures p.scanned == start.scanned + |processed|
    ensures p.indexed + p.failures == start.indexed + start.failures + |processed|
    ensures BlameOk(cfg, start, p, bulkOk)
  {
    p, processed, crashed := start, [], false;
    var i := 0;
    assert [] + Remaining(table, cfg, start) == Remaining(table, cfg, start);
    while true
      invariant Follows(table, cfg, start, p, processed) && BlameOk(cfg, start, p, bulkOk)
      invariant processed != [] ==> !AtLimit(cfg, p)
      decreases |Remaining(table, cfg, p)|
    {
      hide Remaining, Suffix, NextBatch, BlameOk, Follows;
      BatchVerdict(table, cfg, p, bulkOk(i));
      var o := ProcessBatch(table, cfg, p, bulkOk(i));
      if !o.Processed? {
        FollowsFacts(table, cfg, start, p, processed);
        AtLimitNothingRemains(table, cfg, p);
        crashed := o == Crashed;
        break;
      }
      BatchFollows(table, cfg, start, p, processed, bulkOk(i));
      BatchBlames(table, cfg, start, p, bulkOk, i);
      p, processed := o.progress, processed + o.batch;
      i := i + 1;
      if AtLimit(cfg, p) {
        AtLimitNothingRemains(table, cfg, p);
        FollowsFacts(table, cfg, start, p, processed);
        break;
      }
    }
  }

  // ---- Restarts ---------------------------------------------------------------------------------------

  /** Saving is best effort: the file is written, left as it was, or left unreadable. */
  datatype Save = Written | Kept | Spoiled

  /** A bulk request that fails may still have had some of its documents `taken` by the index. */
  datatype Event = Iterate(bulkOk: bool, taken: set<Row>, save: Save) | Restart

  datatype Phase = Running | Finished | Failed

  /** `log` is every row sent so far, over all processes; `index` is what of it is in the index. */
  datatype Job = Job(phase: Phase, memory: Progress, disk: Progress, log: seq<Row>, index: set<Row>)

  function Start(cfg: Config): Job { Job(Running, Fresh(cfg), Fresh(cfg), [], {}) }

  /** The rows of a batch that its request brings into the index; a dry run sends none. */
  function Arrivals(cfg: Config, batch: seq<Row>, bulkOk: bool, taken: set<Row>): set<Row> {
    set r | r in batch && !cfg.dryRun && (bulkOk || r in taken)
  }

  function Apply(table: seq<Row>, cfg: Config, j: Job, e: Event): Job {
    match e
    case Restart => j.(phase := Running, memory := j.disk)
    case Iterate(bulkOk, taken, save) =>
      if j.phase != Running then j
      else
        match NextBatch(table, cfg, j.memory, bulkOk)
        case Exhausted => j.(phase := Finished)
        case Crashed => j.(phase := Failed)
        case Processed(p, batch) =>
          var disk := match save case Written => p case Kept => j.disk case Spoiled => Fresh(cfg);
          Job(if AtLimit(cfg, p) then Finished else Running, p, disk, j.log + batch,
              j.index + Arrivals(cfg, batch, bulkOk, taken))
  }

  function Run(table: seq<Row>, cfg: Config, events: seq<Event>): Job {
    if events == [] then Start(cfg)
    else Apply(table, cfg, Run(table, cfg, events[..|events| - 1]), events[|events| - 1])
  }

  predicate AlwaysWritten(events: seq<Event>) { forall e <- events :: e.Iterate? ==> e.save == Written }

  /** All rows of `more` are in the log or among `less`, and `less` is part of `more`. */
  ghost predicate Accounted(more: seq<Row>, less: seq<Row>, log: seq<Row>) {
    && (forall r <- more :: r in less || r in log)
    && (forall r <- less :: r in more)
  }

  ghost predicate CountersOk(cfg: Config, p: Progress) {
    p.scanned == p.indexed + p.failures && (cfg.limit > 0 ==> p.scanned <= cfg.limit)
  }

  ghost predicate Inv(table: seq<Row>, cfg: Config, j: Job) {
    var all := Remaining(table, cfg, Fresh(cfg));
    && Accounted(all, Remaining(table, cfg, j.disk), j.log)
    && Accounted(Remaining(table, cfg, j.disk), Remaining(table, cfg, j.memory), j.log)
    && (forall r <- j.log :: r in all)
    && (j.phase != Running ==> Remaining(table, cfg, j.memory) == [])
    && CountersOk(cfg, j.memory) && CountersOk(cfg, j.disk)
  }

  lemma AccountedShift(more: seq<Row>, less: seq<Row>, batch: seq<Row>, rest: seq<Row>, log: seq<Row>)
    requires Accounted(more, less, log) && less == batch + rest
    ensures Accounted(more, rest, log + batch) && Accounted(more, less, log + batch)
    ensures Accounted(more, more, log + batch)
    ensures (forall r <- log :: r in more) ==> forall r <- log + batch :: r in more
  {}

  lemma AccountedJoin(a: seq<Row>, b: seq<Row>, c: seq<Row>, log: seq<Row>)
    requires Accounted(a, b, log) && Accounted(b, c, log)
    ensures Accounted(a, c, log)
  {}

  lemma AccountedGrows(a: seq<Row>, b: seq<Row>, log: seq<Row>, batch: seq<Row>)
    requires Accounted(a, b, log)
    ensures Accounted(a, b, log + batch)
  {}

  lemma ProcessedKeepsInv(table: seq<Row>, cfg: Config, j: Job, e: Event)
    requires Distinct(table) && cfg.batchSize >= 1 && Inv(table, cfg, j)
    requires e.Iterate? && j.phase == Running && NextBatch(table, cfg, j.memory, e.bulkOk).Processed?
    ensures Inv(table, cfg, Apply(table, cfg, j, e))
  {
    var o := NextBatch(table, cfg, j.memory, e.bulkOk);
    var all, disk := Remaining(table, cfg, Fresh(cfg)), Remaining(table, cfg, j.disk);
    var memory := Remaining(table, cfg, j.memory);
    var rest := Remaining(table, cfg, o.progress);
    BatchAdvances(table, cfg, j.memory, e.bulkOk);
    if AtLimit(cfg, o.progress) { AtLimitNothingRemains(table, cfg, o.progress); }
    hide Remaining, NextBatch, Suffix, Accounted;
    AccountedJoin(all, disk, memory, j.log);
    AccountedShift(all, memory, o.batch, rest, j.log);
    AccountedShift(disk, memory, o.batch, rest, j.log);
    AccountedGrows(all, disk, j.log, o.batch);
    assert CountersOk(cfg, Fresh(cfg));
    SelfAccounted(rest, j.log + o.batch);
  }

  lemma SelfAccounted(rows: seq<Row>, log: seq<Row>)
    ensures Accounted(rows, rows, log)
  {}

  lemma StepKeepsInv(table: seq<Row>, cfg: Config, j: Job, e: Event)
    requires Distinct(table) && cfg.batchSize >= 1 && Inv(table, cfg, j)
    ensures Inv(table, cfg, Apply(table, cfg, j, e))
  {
    if e.Iterate? && j.phase == Running {
      BatchVerdict(table, cfg, j.memory, e.bulkOk);
      if NextBatch(table, cfg, j.memory, e.bulkOk).Processed? {
        ProcessedKeepsInv(table, cfg, j, e);
      } else {
        AtLimitNothingRemains(table, cfg, j.memory);
      }
    }
  }

  lemma {:induction false} EveryRunKeepsInv(table: seq<Row>, cfg: Config, events: seq<Event>)
    requires Distinct(table) && cfg.batchSize >= 1
    ensures Inv(table, cfg, Run(table, cfg, events))
  {
    if events == [] {
    } else {
      EveryRunKeepsInv(table, cfg, events[..|events| - 1]);
      hide Inv;
      StepKeepsInv(table, cfg, Run(table, cfg, events[..|events| - 1]), events[|events| - 1]);
    }
  }

  /**
   * Killed and restarted any number of times, with checkpoints that fail to be written: once a process ends, every
   * row it was meant to process was sent, and no other was; the counters add up and respect the limit.
   */
  lemma NoRowIsSkipped(table: seq<Row>, cfg: Config, events: seq<Event>, r: Row)
    requires Distinct(table) && cfg.batchSize >= 1
    ensures var j := Run(table, cfg, events);
            && (r in j.log ==> r in Remaining(table, cfg, Fresh(cfg)))
            && (j.phase != Running && r in Remaining(table, cfg, Fresh(cfg)) ==> r in j.log)
            && j.memory.scanned == j.memory.indexed + j.memory.failures
            && (cfg.limit > 0 ==> j.memory.scanned <= cfg.limit)
  {
    EveryRunKeepsInv(table, cfg, events);
  }

  lemma WrittenStep(table: seq<Row>, cfg: Config, j: Job, e: Event)
    requires Distinct(table) && cfg.batchSize >= 1 && j.disk == j.memory && (e.Iterate? ==> e.save == Written)
    ensures var k := Apply(table, cfg, j, e);
            k.log + Remaining(table, cfg, k.memory) == j.log + Remaining(table, cfg, j.memory) && k.disk == k.memory
  {
    if e.Iterate? && j.phase == Running {
      var o := NextBatch(table, cfg, j.memory, e.bulkOk);
      if o.Processed? {
        BatchAdvances(table, cfg, j.memory, e.bulkOk);
        hide Remaining, NextBatch, Suffix;
        JoinBatch(j.log, o.batch, Remaining(table, cfg, o.progress));
      }
    }
  }

  /** When every checkpoint is written, restarts change nothing: the same rows in the same order, none twice. */
  lemma {:induction false} ResumeIsExact(table: seq<Row>, cfg: Config, events: seq<Event>)
    requires Distinct(table) && cfg.batchSize >= 1 && AlwaysWritten(events)
    ensures var j := Run(table, cfg, events);
            && j.log + Remaining(table, cfg, j.memory) == Remaining(table, cfg, Fresh(cfg))
            && j.disk == j.memory
  {
    hide Remaining, Apply;
    if events != [] {
      var n := |events| - 1;
      ResumeIsExact(table, cfg, events[..n]);
      assert events[n] in events;
      WrittenStep(table, cfg, Run(table, cfg, events[..n]), events[n]);
    } else {
      assert [] + Remaining(table, cfg, Fresh(cfg)) == Remaining(table, cfg, Fresh(cfg));
    }
  }

  /**
   * How a turn leaves its process: crashed exactly if it stood at its limit with rows left, finished exactly if no row
   * was left or its batch reached the limit, and running otherwise.
   */
  lemma TurnEnds(table: seq<Row>, cfg: Config, j: Job, e: Event)
    requires Distinct(table) && cfg.batchSize >= 1 && e.Iterate? && j.phase == Running
    ensures var k := Apply(table, cfg, j, e);
            var rest := Suffix(table, j.memory.cursor, cfg.SqlQuery());
            k.phase == if rest == [] then Finished
                       else if cfg.limit > 0 && j.memory.scanned >= cfg.limit then Failed
                       else if cfg.limit > 0 && k.memory.scanned >= cfg.limit then Finished else Running
  {
    BatchVerdict(table, cfg, j.memory, e.bulkOk);
    hide NextBatch, Suffix;
  }

  /**
   * Left alone, a process ends: after as many turns as there are rows to process, and one more, it runs no longer.
   */
  lemma {:induction false} ProcessEnds(table: seq<Row>, cfg: Config, events: seq<Event>, turns: seq<Event>)
    requires Distinct(table) && cfg.batchSize >= 1 && forall e <- turns :: e.Iterate?
    requires |turns| > |Remaining(table, cfg, Run(table, cfg, events).memory)|
    ensures Run(table, cfg, events + turns).phase != Running
    decreases |turns|
  {
    var j := Run(table, cfg, events);
    var e := turns[0];
    RunOneMore(table, cfg, events, e);
    assert events + turns == events + [e] + turns[1..];
    if j.phase != Running {
      StaysEnded(table, cfg, events, turns);
    } else if !NextBatch(table, cfg, j.memory, e.bulkOk).Processed? {
      assert forall x <- turns[1..] :: x in turns;
      StaysEnded(table, cfg, events + [e], turns[1..]);
    } else {
      BatchAdvances(table, cfg, j.memory, e.bulkOk);
      hide Remaining, NextBatch, Distinct;
      assert forall x <- turns[1..] :: x in turns;
      ProcessEnds(table, cfg, events + [e], turns[1..]);
    }
  }

  lemma EndedTurn(table: seq<Row>, cfg: Config, j: Job, e: Event)
    requires j.phase != Running && e.Iterate?
    ensures Apply(table, cfg, j, e) == j
  {
    hide NextBatch;
  }

  lemma RunOneMore(table: seq<Row>, cfg: Config, events: seq<Event>, e: Event)
    ensures Run(table, cfg, events + [e]) == Apply(table, cfg, Run(table, cfg, events), e)
  {
    hide Apply;
    assert (events + [e])[..|events|] == events;
  }

  lemma {:induction false} StaysEnded(table: seq<Row>, cfg: Config, events: seq<Event>, turns: seq<Event>)
    requires Run(table, cfg, events).phase != Running && forall e <- turns :: e.Iterate?
    ensures Run(table, cfg, events + turns).phase != Running
  {
    hide Run, Apply;
    if turns == [] {
      assert events + turns == events;
    } else {
      var n := |turns| - 1;
      assert events + turns == events + turns[..n] + [turns[n]];
      assert turns[n] in turns && forall e <- turns[..n] :: e in turns;
      StaysEnded(table, cfg, events, turns[..n]);
      RunOneMore(table, cfg, events + turns[..n], turns[n]);
      EndedTurn(table, cfg, Run(table, cfg, events + turns[..n]), turns[n]);
    }
  }

  lemma RunTwoMore(table: seq<Row>, cfg: Config, events: seq<Event>, a: Event, b: Event)
    ensures Run(table, cfg, events + [a, b]) == Apply(table, cfg, Apply(table, cfg, Run(table, cfg, events), a), b)
  {
    assert events + [a, b] == events + [a] + [b];
    RunOneMore(table, cfg, events, a);
    RunOneMore(table, cfg, events + [a], b);
    hide Run, Apply;
  }

  /**
   * What a restart costs, whatever went before: after a turn whose checkpoint was written the next process goes on
   * behind its batch; if it was not, where the last written one stands; if it was spoiled, from the beginning.
   */
  lemma RestartReadsCheckpoint(table: seq<Row>, cfg: Config, events: seq<Event>, e: Event)
    requires Distinct(table) && cfg.batchSize >= 1 && e.Iterate?
    requires var j := Run(table, cfg, events);
             j.phase == Running && NextBatch(table, cfg, j.memory, e.bulkOk).Processed?
    ensures var j := Run(table, cfg, events);
            var next := Run(table, cfg, events + [e, Restart]);
            && next.phase == Running
            && (e.save == Written ==>
                  Remaining(table, cfg, j.memory)
                  == NextBatch(table, cfg, j.memory, e.bulkOk).batch + Remaining(table, cfg, next.memory))
            && (e.save == Kept ==> next.memory == Apply(table, cfg, j, Restart).memory == j.disk)
            && (e.save == Spoiled ==> next.memory == Fresh(cfg))
  {
    RunTwoMore(table, cfg, events, e, Restart);
    BatchAdvances(table, cfg, Run(table, cfg, events).memory, e.bulkOk);
    hide Run, Remaining, NextBatch, Distinct;
  }

  // ---- What is in the index ----------------------------------------------------------------------------

  /** The event is a turn whose request brings r into the index. */
  predicate Brings(table: seq<Row>, cfg: Config, j: Job, e: Event, r: Row) {
    && e.Iterate? && j.phase == Running && NextBatch(table, cfg, j.memory, e.bulkOk).Processed?
    && r in Arrivals(cfg, NextBatch(table, cfg, j.memory, e.bulkOk).batch, e.bulkOk, e.taken)
  }

  lemma IndexAfter(table: seq<Row>, cfg: Config, j: Job, e: Event, r: Row)
    ensures r in Apply(table, cfg, j, e).index <==> r in j.index || Brings(table, cfg, j, e, r)
  {
    hide NextBatch, Arrivals;
  }

  /** A dry run counts rows and sends none. */
  lemma {:induction false} DryRunSendsNothing(table: seq<Row>, cfg: Config, events: seq<Event>)
    requires cfg.dryRun
    ensures Run(table, cfg, events).index == {} && Run(table, cfg, events).memory.failures == 0
    ensures Run(table, cfg, events).disk.failures == 0
  {
    if events == [] {
    } else {
      DryRunSendsNothing(table, cfg, events[..|events| - 1]);
      hide PageFromCursor;
    }
  }

  /** Event i of the run brought r there. */
  predicate Delivers(table: seq<Row>, cfg: Config, events: seq<Event>, i: nat, r: Row) {
    i < |events| && Brings(table, cfg, Run(table, cfg, events[..i]), events[i], r)
  }

  /** However often it is restarted: a row is in the index exactly if some request with it brought it there. */
  lemma {:induction false} IndexHoldsExactly(table: seq<Row>, cfg: Config, events: seq<Event>, r: Row)
    ensures r in Run(table, cfg, events).index <==> exists i: nat :: Delivers(table, cfg, events, i, r)
  {
    if events == [] {
    } else {
      var n := |events| - 1;
      IndexHoldsExactly(table, cfg, events[..n], r);
      IndexAfter(table, cfg, Run(table, cfg, events[..n]), events[n], r);
      hide Apply, Brings;
      forall i: nat | i < n ensures Delivers(table, cfg, events, i, r) <==> Delivers(table, cfg, events[..n], i, r) {
        assert events[..i] == events[..n][..i];
      }
      if i: nat :| Delivers(table, cfg, events[..n], i, r) {
        assert Delivers(table, cfg, events, i, r);
      }
      assert Delivers(table, cfg, events, n, r) <==> Brings(table, cfg, Run(table, cfg, events[..n]), events[n], r);
    }
  }

  lemma {:induction false} DistinctCount(s: seq<Row>)
    requires Distinct(s)
    ensures |set r | r in s| == |s|
  {
    if s == [] {
      assert (set r | r in s) == {};
    } else {
      DistinctCount(s[1..]);
      assert s == [s[0]] + s[1..];
      assert (set r | r in s) == (set r | r in s[1..]) + {s[0]};
    }
  }

  /** Sent, and not in the index. */
  function Missing(j: Job): set<Row> { set r | r in j.log && r !in j.index }

  /** What is sent next has not been sent before, and only what was sent is in the index. */
  ghost predicate Once(table: seq<Row>, cfg: Config, j: Job) {
    Distinct(j.log + Remaining(table, cfg, j.memory)) && forall r <- j.index :: r in j.log
  }

  lemma {:induction false} WrittenRunsSendOnce(table: seq<Row>, cfg: Config, events: seq<Event>)
    requires Distinct(table) && cfg.batchSize >= 1 && AlwaysWritten(events)
    ensures Once(table, cfg, Run(table, cfg, events))
  {
    ResumeIsExact(table, cfg, events);
    RemainingIsDistinct(table, cfg, Fresh(cfg));
    if events == [] {
    } else {
      var n := |events| - 1;
      assert forall e <- events[..n] :: e in events;
      WrittenRunsSendOnce(table, cfg, events[..n]);
      hide Remaining, NextBatch, Distinct;
    }
  }

  lemma RemainingIsDistinct(table: seq<Row>, cfg: Config, p: Progress)
    requires Distinct(table)
    ensures Distinct(Remaining(table, cfg, p))
  {
    SuffixFacts(table, p.cursor, cfg.SqlQuery());
    StrictIsDistinct(cfg.order, Suffix(table, p.cursor, cfg.SqlQuery()));
    hide Suffix;
  }

  lemma ThreeParts(a: seq<Row>, b: seq<Row>, c: seq<Row>)
    requires Distinct(a + (b + c))
    ensures Distinct(b) && forall r <- b :: r !in a
  {
    DistinctParts(a, b + c);
    DistinctParts(b, c);
    assert forall r <- b :: r in b + c;
  }

  /** A turn leaves those rows of its batch out that its request fails to bring in. */
  lemma MissingAfterTurn(table: seq<Row>, cfg: Config, j: Job, e: Event)
    requires Distinct(table) && cfg.batchSize >= 1 && Once(table, cfg, j)
    requires e.Iterate? && j.phase == Running && NextBatch(table, cfg, j.memory, e.bulkOk).Processed?
    ensures var batch := NextBatch(table, cfg, j.memory, e.bulkOk).batch;
            var out := (set r | r in batch) - Arrivals(cfg, batch, e.bulkOk, e.taken);
            && Missing(Apply(table, cfg, j, e)) == Missing(j) + out && Missing(j) !! out
            && |set r | r in batch| == |batch|
  {
    var o := NextBatch(table, cfg, j.memory, e.bulkOk);
    BatchAdvances(table, cfg, j.memory, e.bulkOk);
    ThreeParts(j.log, o.batch, Remaining(table, cfg, o.progress));
    DistinctCount(o.batch);
    hide Remaining, NextBatch, Distinct;
  }

  lemma TurnCounts(table: seq<Row>, cfg: Config, j: Job, e: Event)
    requires Distinct(table) && cfg.batchSize >= 1 && Once(table, cfg, j) && !cfg.dryRun
    requires e.Iterate? && j.phase == Running && NextBatch(table, cfg, j.memory, e.bulkOk).Processed?
    ensures var k := Apply(table, cfg, j, e);
            && |Missing(k)| - |Missing(j)| <= k.memory.failures - j.memory.failures
            && (e.taken == {} ==> |Missing(k)| - |Missing(j)| == k.memory.failures - j.memory.failures)
  {
    var o := NextBatch(table, cfg, j.memory, e.bulkOk);
    MissingAfterTurn(table, cfg, j, e);
    BatchAdvances(table, cfg, j.memory, e.bulkOk);
    hide Remaining, NextBatch, Distinct, Missing;
    var rows := set r | r in o.batch;
    var arrived := Arrivals(cfg, o.batch, e.bulkOk, e.taken);
    assert e.bulkOk ==> rows - arrived == {};
    assert !e.bulkOk && e.taken == {} ==> rows - arrived == rows;
    SubsetCount(rows - arrived, rows);
  }

  lemma SubsetCount(a: set<Row>, b: set<Row>)
    requires a <= b
    ensures |a| <= |b|
  {
    assert b == a + (b - a);
  }

  predicate NothingTaken(events: seq<Event>) { forall e <- events :: e.Iterate? ==> e.taken == {} }

  /**
   * With every checkpoint written, the failure counter bounds the rows that were sent and are not in the index; it is
   * their exact number if failed requests had nothing taken.
   */
  lemma {:induction false} FailuresBoundMissing(table: seq<Row>, cfg: Config, events: seq<Event>)
    requires Distinct(table) && cfg.batchSize >= 1 && AlwaysWritten(events) && !cfg.dryRun
    ensures var j := Run(table, cfg, events);
            && |Missing(j)| <= j.memory.failures
            && (NothingTaken(events) ==> |Missing(j)| == j.memory.failures)
  {
    if events == [] {
    } else {
      var n := |events| - 1;
      var j := Run(table, cfg, events[..n]);
      assert events[n] in events && forall e <- events[..n] :: e in events;
      FailuresBoundMissing(table, cfg, events[..n]);
      WrittenRunsSendOnce(table, cfg, events[..n]);
      ResumeIsExact(table, cfg, events[..n]);
      hide Remaining, NextBatch, Distinct, Once;
      var e := events[n];
      if e.Iterate? && j.phase == Running && NextBatch(table, cfg, j.memory, e.bulkOk).Processed? {
        TurnCounts(table, cfg, j, e);
      }
    }
  }

  /**
   * A failed row is lost for good: the checkpoint has moved past it, so while checkpoints are written no later turn
   * of any process sends it again.
   */
  lemma {:induction false} FailedRowsStayOut(table: seq<Row>, cfg: Config, events: seq<Event>, more: seq<Event>, r: Row)
    requires Distinct(table) && cfg.batchSize >= 1 && AlwaysWritten(events + more)
    requires r in Missing(Run(table, cfg, events))
    ensures r in Missing(Run(table, cfg, events + more))
  {
    if more == [] {
      assert events + more == events;
    } else {
      var n := |more| - 1;
      var all := events + more;
      assert all[..|all| - 1] == events + more[..n] && all[|all| - 1] == more[n];
      assert forall e <- events + more[..n] :: e in all;
      FailedRowsStayOut(table, cfg, events, more[..n], r);
      WrittenRunsSendOnce(table, cfg, events + more[..n]);
      hide Remaining, NextBatch, Distinct, Once, Missing;
      MissingStays(table, cfg, Run(table, cfg, events + more[..n]), more[n]);
    }
  }

  lemma MissingStays(table: seq<Row>, cfg: Config, j: Job, e: Event)
    requires Distinct(table) && cfg.batchSize >= 1 && Once(table, cfg, j)
    ensures Missing(j) <= Missing(Apply(table, cfg, j, e))
  {
    if e.Iterate? && j.phase == Running && NextBatch(table, cfg, j.memory, e.bulkOk).Processed? {
      MissingAfterTurn(table, cfg, j, e);
    }
    hide NextBatch, Once;
  }

  /**
   * Once a process ends, with every checkpoint written and nothing taken from failed requests: all rows it was meant
   * to index are in the index if and only if it reports no failure.
   */
  lemma IndexCompleteExactlyWhen(table: seq<Row>, cfg: Config, events: seq<Event>)
    requires Distinct(table) && cfg.batchSize >= 1 && AlwaysWritten(events) && NothingTaken(events) && !cfg.dryRun
    requires Run(table, cfg, events).phase != Running
    ensures var j := Run(table, cfg, events);
            (forall r <- Remaining(table, cfg, Fresh(cfg)) :: r in j.index) <==> j.memory.failures == 0
  {
    var j := Run(table, cfg, events);
    FailuresBoundMissing(table, cfg, events);
    ResumeIsExact(table, cfg, events);
    EveryRunKeepsInv(table, cfg, events);
    assert j.log + [] == j.log;
    assert Remaining(table, cfg, Fresh(cfg)) == j.log;
    hide Run, Remaining;
    assert forall r :: r in Missing(j) <==> r in j.log && r !in j.index;
  }

  // ---- What a fresh run covers -------------------------------------------------------------------------

  /** Every identifier is a UUID, of which the nil UUID is the least. */
  predicate UuidTable(table: seq<Row>) {
    forall r <- table :: !StrLess(r.id, "00000000-0000-0000-0000-000000000000")
  }

  predicate InBounds(cfg: Config, r: Row) {
    (cfg.since.Some? ==> cfg.since.value <= r.us) && (cfg.until.Some? ==> r.us <= cfg.until.value)
  }

  /**
   * A fresh run begins strictly behind the nil UUID of an instant.  Ascending that is `--since`, or the start of 1970;
   * descending it is `--until`, or the last millisecond of the year 9999.
   */
  predicate OnFreshEdge(cfg: Config, r: Row) {
    if cfg.order == Asc then
      var from := if cfg.since.Some? then cfg.since.value else 0;
      r.us < from || (r.us == from && r.id == "00000000-0000-0000-0000-000000000000")
    else
      r.us >= if cfg.until.Some? then cfg.until.value else 253402300799999000
  }

  /** The rows a fresh run would process without a limit. */
  function Reachable(table: seq<Row>, cfg: Config): set<Row> {
    set r | r in table && InBounds(cfg, r) && !OnFreshEdge(cfg, r)
  }

  /** Those of them that come before r. */
  function Earlier(table: seq<Row>, cfg: Config, r: Row): set<Row> {
    set x | x in Reachable(table, cfg) && After(cfg.order, x, r)
  }

  lemma FreshSuffix(table: seq<Row>, cfg: Config)
    requires Distinct(table) && UuidTable(table)
    ensures var s := Suffix(table, Fresh(cfg).cursor, cfg.SqlQuery());
            Strict(cfg.order, s) && forall r :: r in s <==> r in Reachable(table, cfg)
  {
    var s := Suffix(table, Fresh(cfg).cursor, cfg.SqlQuery());
    SuffixFacts(table, Fresh(cfg).cursor, cfg.SqlQuery());
    hide Suffix, OnFreshEdge, Fresh, After;
    forall r ensures r in s <==> r in Reachable(table, cfg) {
      if r in table { FreshPasses(cfg, r); }
    }
  }

  /** The strict cursor of a fresh run passes exactly the rows off the edge. */
  lemma FreshPasses(cfg: Config, r: Row)
    requires !StrLess(r.id, "00000000-0000-0000-0000-000000000000")
    ensures After(cfg.order, Fresh(cfg).cursor, r) <==> !OnFreshEdge(cfg, r)
  {
    hide StrLess;
    StrLessTotal(r.id, "00000000-0000-0000-0000-000000000000");
  }

  /** In a strictly ordered list, the elements before position i are those that r = s[i] comes after. */
  lemma PositionIsRank(order: Order, s: seq<Row>, i: nat)
    requires Strict(order, s) && i < |s|
    ensures (set x | x in s && After(order, x, s[i])) == (set x | x in s[..i])
  {
    assert forall j :: i < j < |s| ==> After(order, s[i], s[j]);
    forall x ensures x in s && After(order, x, s[i]) <==> x in s[..i] {
      if x in s && After(order, x, s[i]) {
        var j :| 0 <= j < |s| && s[j] == x;
        AfterTotal(order, s[i], x);
      }
    }
  }

  /** The first n elements are those with fewer than n before them. */
  lemma PrefixByRank(order: Order, s: seq<Row>, n: nat, r: Row)
    requires Strict(order, s) && n <= |s| && r in s
    ensures var rank := |set x | x in s && After(order, x, r)|; rank < |s| && (r in s[..n] <==> rank < n)
  {
    StrictIsDistinct(order, s);
    var i :| 0 <= i < |s| && s[i] == r;
    PositionIsRank(order, s, i);
    DistinctCount(s[..i]);
    PrefixHas(s, n, i);
    hide Strict, Distinct, After;
  }

  /** A fresh run reaches exactly the rows in bounds and off the edge, as many as its limit allows, earliest first. */
  lemma FreshRunReaches(table: seq<Row>, cfg: Config, r: Row)
    requires Distinct(table) && UuidTable(table)
    ensures r in Remaining(table, cfg, Fresh(cfg)) <==>
            && r in table && InBounds(cfg, r) && !OnFreshEdge(cfg, r)
            && (cfg.limit <= 0 || |Earlier(table, cfg, r)| < cfg.limit)
  {
    var s := Suffix(table, Fresh(cfg).cursor, cfg.SqlQuery());
    FreshSuffix(table, cfg);
    assert r in s <==> r in table && InBounds(cfg, r) && !OnFreshEdge(cfg, r);
    hide StrLess, UuidTable, Suffix, Reachable, OnFreshEdge, InBounds, Distinct, Fresh, After;
    if r in s && cfg.limit > 0 {
      PrefixByRank(cfg.order, s, Min(|s|, cfg.limit), r);
      assert Earlier(table, cfg, r) == set x | x in s && After(cfg.order, x, r);
      assert Remaining(table, cfg, Fresh(cfg)) == s[..Min(|s|, cfg.limit)];
    }
  }

  lemma PrefixHas(s: seq<Row>, n: nat, i: nat)
    requires Distinct(s) && n <= |s| && i < |s|
    ensures s[i] in s[..n] <==> i < n
  {}

  /** Without `--since` an ascending run without limit reaches exactly the rows in bounds after the start of 1970. */
  lemma AscendingDefaultReaches(table: seq<Row>, cfg: Config, r: Row)
    requires Distinct(table) && UuidTable(table) && cfg.order == Asc && cfg.since == None && cfg.limit <= 0
    ensures r in Remaining(table, cfg, Fresh(cfg)) <==>
            && r in table && (cfg.until.Some? ==> r.us <= cfg.until.value)
            && (r.us > 0 || (r.us == 0 && r.id != "00000000-0000-0000-0000-000000000000"))
  {
    FreshRunReaches(table, cfg, r);
    hide Remaining, Fresh;
  }

  /** Without `--until` a descending run without limit reaches the rows in bounds before 9999-12-31T23:59:59.999Z. */
  lemma DescendingDefaultReaches(table: seq<Row>, cfg: Config, r: Row)
    requires Distinct(table) && UuidTable(table) && cfg.order == Desc && cfg.until == None && cfg.limit <= 0
    ensures r in Remaining(table, cfg, Fresh(cfg)) <==>
            && r in table && (cfg.since.Some? ==> cfg.since.value <= r.us)
            && r.us < 253402300799999000
  {
    FreshRunReaches(table, cfg, r);
    hide Remaining, Fresh;
  }

  /** All rows in bounds are reached exactly when none is on the edge and they are no more than the limit. */
  lemma FreshRunCompleteExactlyWhen(table: seq<Row>, cfg: Config)
    requires Distinct(table) && UuidTable(table)
    ensures (forall r <- table :: InBounds(cfg, r) ==> r in Remaining(table, cfg, Fresh(cfg)))
            <==> && (forall r <- table :: InBounds(cfg, r) ==> !OnFreshEdge(cfg, r))
                 && (cfg.limit <= 0 || |Reachable(table, cfg)| <= cfg.limit)
  {
    var s := Suffix(table, Fresh(cfg).cursor, cfg.SqlQuery());
    var all := Remaining(table, cfg, Fresh(cfg));
    FreshSuffix(table, cfg);
    StrictIsDistinct(cfg.order, s);
    DistinctCount(s);
    assert Reachable(table, cfg) == set r | r in s;
    forall r ensures r in s <==> r in table && InBounds(cfg, r) && !OnFreshEdge(cfg, r) {
      assert r in s <==> r in Reachable(table, cfg);
    }
    hide Suffix, OnFreshEdge, Reachable, InBounds, UuidTable, Fresh;
    if cfg.limit > 0 && |s| > cfg.limit {
      PrefixHas(s, cfg.limit, cfg.limit);
      assert s[cfg.limit] in s && s[cfg.limit] !in all;
    } else {
      assert all == s;
    }
  }

  /**
   * With `--until`, a descending run is complete if and only if no row in bounds lies exactly at that instant and
   * there are no more rows than its limit, if it has one.
   */
  lemma DescendingUntilCompleteExactlyWhen(table: seq<Row>, cfg: Config)
    requires Distinct(table) && UuidTable(table) && cfg.order == Desc && cfg.until.Some?
    ensures (forall r <- table :: InBounds(cfg, r) ==> r in Remaining(table, cfg, Fresh(cfg)))
            <==> && (forall r <- table :: InBounds(cfg, r) ==> r.us != cfg.until.value)
                 && (cfg.limit <= 0 || |Reachable(table, cfg)| <= cfg.limit)
  {
    FreshRunCompleteExactlyWhen(table, cfg);
    forall r | InBounds(cfg, r) ensures OnFreshEdge(cfg, r) <==> r.us == cfg.until.value {}
    hide Remaining, Reachable, OnFreshEdge, Fresh;
  }

  /** An ascending run with `--since` loses on its edge only a row at that instant whose id is the nil UUID. */
  lemma AscendingSinceCompleteExactlyWhen(table: seq<Row>, cfg: Config)
    requires Distinct(table) && UuidTable(table) && cfg.order == Asc && cfg.since.Some?
    ensures (forall r <- table :: InBounds(cfg, r) ==> r in Remaining(table, cfg, Fresh(cfg)))
            <==> && (Row(cfg.since.value, NIL_UUID) in table ==> !InBounds(cfg, Row(cfg.since.value, NIL_UUID)))
                 && (cfg.limit <= 0 || |Reachable(table, cfg)| <= cfg.limit)
  {
    FreshRunCompleteExactlyWhen(table, cfg);
    forall r | InBounds(cfg, r) ensures OnFreshEdge(cfg, r) <==> r == Row(cfg.since.value, NIL_UUID) {}
    hide Remaining, Reachable, OnFreshEdge, Fresh;
  }

  /** A concrete loss: one row, exactly at `--until`, is within bounds and never reached. */
  lemma UntilRowIsSkipped()
    ensures var r := Row(1000, "5");
            var cfg := Config(100, 0, Desc, None, Some(1000), false);
            InBounds(cfg, r) && Remaining([r], cfg, Fresh(cfg)) == []
  {
    var r := Row(1000, "5");
    var cfg := Config(100, 0, Desc, None, Some(1000), false);
    assert StrLess(NIL_UUID, "5") && !StrLess("5", NIL_UUID);
    FreshRunReaches([r], cfg, r);
    var s := Remaining([r], cfg, Fresh(cfg));
    forall x ensures x !in s { FreshRunReaches([r], cfg, x); }
    EmptyHasNoMembers(s);
  }
}
