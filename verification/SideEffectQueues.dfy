/**
 * Fire-and-forget side effects (sideEffects.ts): three in-memory queues, each drained by a bounded pool of
 * workers that run on the event loop.
 */
module SideEffectQueues {
  import opened Basics

  datatype Job = Job(id: nat, name: string)

  datatype QueueName = Critical | Background | ReadReceipt

  const BACKGROUND_PREFIX := "fanout:background."
  const READ_RECEIPT_NAME := "fanout.read_receipt"

  function QueueNameForJob(name: string): QueueName {
    if BACKGROUND_PREFIX <= name then Background
    else if name == READ_RECEIPT_NAME then ReadReceipt
    else Critical
  }

  datatype QueueConfig = QueueConfig(concurrency: nat, maxDepth: nat, dropOnOverflow: bool)

  /** The environment: concurrency and depth of the critical queue, and how often a worker yields (0 = never). */
  datatype Settings = Settings(concurrency: nat, criticalMaxDepth: nat, yieldEvery: nat)

  /** A number from the environment, absent when it is not finite: positive values are rounded down. */
  function FloorPositive(raw: Option<real>, fallback: nat): nat {
    if raw.Some? && raw.value > 0.0 then raw.value.Floor else fallback
  }

  /** FANOUT_QUEUE_CONCURRENCY, FANOUT_CRITICAL_MAX_DEPTH and FANOUT_QUEUE_YIELD_EVERY. */
  function ReadSettings(concurrency: Option<real>, depth: Option<real>, yieldEvery: Option<int>): Settings {
    Settings(FloorPositive(concurrency, 4), FloorPositive(depth, 5000),
             match yieldEvery case None => 6 case Some(n) => if n <= 0 then 0 else Min(256, n))
  }

  /** A concurrency strictly between 0 and 1 passes the test for positive numbers and is rounded down to no worker. */
  lemma NoWorkersExactlyWhen(concurrency: Option<real>, depth: Option<real>, yieldEvery: Option<int>)
    ensures ReadSettings(concurrency, depth, yieldEvery).concurrency == 0
            <==> concurrency.Some? && 0.0 < concurrency.value < 1.0
  {}

  /** The settings of an empty environment, and what a positive or an out-of-range value becomes. */
  lemma SettingsAreRead(concurrency: Option<real>, depth: Option<real>, yieldEvery: Option<int>)
    ensures ReadSettings(None, None, None) == Settings(4, 5000, 6)
    ensures var s := ReadSettings(concurrency, depth, yieldEvery);
            && (concurrency.Some? && concurrency.value > 0.0 ==>
                  s.concurrency as real <= concurrency.value < s.concurrency as real + 1.0)
            && (depth.Some? && depth.value > 0.0 ==>
                  s.criticalMaxDepth as real <= depth.value < s.criticalMaxDepth as real + 1.0)
            && (concurrency.Some? && concurrency.value <= 0.0 ==> s.concurrency == 4)
            && (yieldEvery.Some? && 0 <= yieldEvery.value <= 256 ==> s.yieldEvery == yieldEvery.value)
            && s.yieldEvery <= 256 && (yieldEvery.Some? && yieldEvery.value < 0 ==> s.yieldEvery == 0)
  {}

  function ConfigOf(s: Settings, q: QueueName): QueueConfig {
    if q == Background || q == ReadReceipt then QueueConfig(2, 10000, true)
    else QueueConfig(s.concurrency, s.criticalMaxDepth, false)
  }

  // ---- The module state -------------------------------------------------------------------------------

  /** One queue and its worker count: all that the module keeps about it. */
  datatype Core = Core(queue: seq<Job>, active: int)

  /** How many workers maybeStartWorkers starts. */
  function Starts(cfg: QueueConfig, depth: nat, active: int): nat {
    if depth == 0 then 0 else Max(0, cfg.concurrency - active)
  }

  predicate Refuses(cfg: QueueConfig, c: Core) { cfg.dropOnOverflow && |c.queue| >= cfg.maxDepth }

  /** enqueue, unless it refuses. */
  function Accept(cfg: QueueConfig, c: Core, job: Job): Core {
    Core(c.queue + [job], c.active + Starts(cfg, |c.queue| + 1, c.active))
  }

  /** A worker at its loop head takes the oldest job or ends. */
  function TakeOrRetire(c: Core): Core {
    if c.queue == [] then c.(active := Max(0, c.active - 1)) else c.(queue := c.queue[1..])
  }

  class SideEffects {
    const settings: Settings
    var queues: map<QueueName, seq<Job>>
    var activeWorkers: map<QueueName, int>

    ghost predicate Valid()
      reads this
    {
      forall q: QueueName :: q in queues && q in activeWorkers && activeWorkers[q] >= 0
    }

    ghost function View(q: QueueName): Core
      requires Valid()
      reads this
    {
      Core(queues[q], activeWorkers[q])
    }

    constructor (settings: Settings)
      ensures Valid() && this.settings == settings
      ensures forall q: QueueName :: queues[q] == [] && activeWorkers[q] == 0
    {
      this.settings := settings;
      queues := map[Critical := [], Background := [], ReadReceipt := []];
      activeWorkers := map[Critical := 0, Background := 0, ReadReceipt := 0];
      new;
      forall q: QueueName ensures q in queues && q in activeWorkers && queues[q] == [] && activeWorkers[q] == 0 {
        match q { case Critical => case Background => case ReadReceipt => }
      }
    }

    /** Raises the worker count to the concurrency whenever anything is queued. */
    method MaybeStartWorkers(q: QueueName) returns (started: nat)
      requires Valid()
      modifies this`activeWorkers
      ensures Valid()
      ensures started == Starts(ConfigOf(settings, q), |queues[q]|, old(activeWorkers[q]))
      ensures activeWorkers == old(activeWorkers)[q := old(activeWorkers[q]) + started]
    {
      started := 0;
      var concurrency := ConfigOf(settings, q).concurrency;
      while activeWorkers[q] < concurrency && |queues[q]| > 0
        invariant Valid()
        invariant activeWorkers == old(activeWorkers)[q := old(activeWorkers[q]) + started]
        invariant started > 0 ==> |queues[q]| > 0 && activeWorkers[q] <= concurrency
        decreases concurrency - activeWorkers[q]
      {
        activeWorkers := activeWorkers[q := activeWorkers[q] + 1];
        started := started + 1;
      }
    }

    /** Accepts at the end of the right queue, or refuses on a full droppable queue and changes nothing. */
    method Enqueue(job: Job) returns (accepted: bool, started: nat)
      requires Valid()
      modifies this
      ensures Valid()
      ensures var q := QueueNameForJob(job.name);
              var cfg := ConfigOf(settings, q);
              && accepted == !Refuses(cfg, old(View(q)))
              && View(q) == (if accepted then Accept(cfg, old(View(q)), job) else old(View(q)))
              && started == View(q).active - old(View(q)).active
      ensures forall r: QueueName :: r != QueueNameForJob(job.name) ==> View(r) == old(View(r))
    {
      var q := QueueNameForJob(job.name);
      var cfg := ConfigOf(settings, q);
      if cfg.dropOnOverflow && |queues[q]| >= cfg.maxDepth {
        return false, 0;
      }
      queues := queues[q := queues[q] + [job]];
      started := MaybeStartWorkers(q);
      accepted := true;
    }

    /**
     * The head of drainWorker's loop: the oldest job, or the end of this worker.  The source then starts workers
     * again if the queue is non-empty; nothing runs between the loop guard and that test, so it never fires.
     */
    method TakeOrEnd(q: QueueName) returns (job: Option<Job>)
      requires Valid()
      modifies this
      ensures Valid()
      ensures View(q) == TakeOrRetire(old(View(q)))
      ensures job == if old(View(q)).queue == [] then None else Some(old(View(q)).queue[0])
      ensures forall r: QueueName :: r != q ==> View(r) == old(View(r))
    {
      if |queues[q]| > 0 {
        job := Some(queues[q][0]);
        queues := queues[q := queues[q][1..]];
      } else {
        job := None;
        activeWorkers := activeWorkers[q := Max(0, activeWorkers[q] - 1)];
        assert queues[q] == [];
      }
    }
  }

  // ---- One queue with its workers on the event loop ---------------------------------------------------

  datatype Running = Running(job: Job, processed: nat)

  /**
   * A worker is scheduled (setImmediate pending), running a job, or yielding with its count of finished jobs.
   * `accepted`, `started`, `finished` and `dropped` record the past.
   */
  datatype Lane = Lane(
    core: Core, scheduled: nat, running: seq<Running>, yielding: seq<nat>,
    accepted: seq<Job>, started: seq<Job>, finished: seq<Job>, dropped: seq<Job>)

  const IDLE := Lane(Core([], 0), 0, [], [], [], [], [], [])

  datatype LaneStep =
    | Arrive(job: Job)
    | WorkerBegins
    | JobSettles(i: nat)      // the job of running[i] resolved or threw
    | YieldEnds(i: nat)

  predicate LaneEnabled(l: Lane, step: LaneStep) {
    match step
    case Arrive(job) => job !in l.accepted
    case WorkerBegins => l.scheduled > 0
    case JobSettles(i) => i < |l.running|
    case YieldEnds(i) => i < |l.yielding|
  }

  /** A worker that owns no job meets the loop head. */
  function LoopTop(l: Lane, processed: nat): Lane {
    var core := TakeOrRetire(l.core);
    if l.core.queue == [] then l.(core := core)
    else
      var job := l.core.queue[0];
      l.(core := core, started := l.started + [job], running := l.running + [Running(job, processed)])
  }

  function LaneApply(cfg: QueueConfig, yieldEvery: nat, l: Lane, step: LaneStep): Lane
    requires LaneEnabled(l, step)
  {
    match step
    case Arrive(job) =>
      if Refuses(cfg, l.core) then l.(dropped := l.dropped + [job])
      else
        var core := Accept(cfg, l.core, job);
        l.(core := core, accepted := l.accepted + [job], scheduled := l.scheduled + Max(0, core.active - l.core.active))
    case WorkerBegins => LoopTop(l.(scheduled := l.scheduled - 1), 0)
    case JobSettles(i) =>
      var r := l.running[i];
      var m := l.(running := Splice(l.running, i), finished := l.finished + [r.job]);
      if yieldEvery > 0 && (r.processed + 1) % yieldEvery == 0 && l.core.queue != []
      then m.(yielding := l.yielding + [r.processed + 1])
      else LoopTop(m, r.processed + 1)
    case YieldEnds(i) => LoopTop(l.(yielding := Splice(l.yielding, i)), l.yielding[i])
  }

  function JobsOf(rs: seq<Running>): seq<Job> { seq(|rs|, i requires 0 <= i < |rs| => rs[i].job) }

  /**
   * Work conservation, the worker bound, FIFO starts, one place per job, and the depth bound of droppable
   * queues; `atHead` workers are at their loop head and own nothing.
   */
  ghost predicate LaneInvWith(cfg: QueueConfig, l: Lane, atHead: nat) {
    && l.core.active == l.scheduled + |l.running| + |l.yielding| + atHead <= cfg.concurrency
    && (l.core.queue != [] ==> l.core.active == cfg.concurrency)
    && l.accepted == l.started + l.core.queue
    && multiset(l.started) == multiset(JobsOf(l.running)) + multiset(l.finished)
    && Distinct(l.accepted)
    && (cfg.dropOnOverflow ==> |l.core.queue| <= cfg.maxDepth)
    && (!cfg.dropOnOverflow ==> l.dropped == [])
  }

  ghost predicate LaneInv(cfg: QueueConfig, l: Lane) { LaneInvWith(cfg, l, 0) }

  lemma JobsOfAppend(rs: seq<Running>, r: Running)
    ensures JobsOf(rs + [r]) == JobsOf(rs) + [r.job]
  {}

  lemma JobsOfRemove(rs: seq<Running>, i: nat)
    requires i < |rs|
    ensures multiset(JobsOf(rs)) == multiset(JobsOf(Splice(rs, i))) + multiset{rs[i].job}
  {
    var js := JobsOf(rs);
    assert js == js[..i] + [js[i]] + js[i + 1..];
    assert JobsOf(Splice(rs, i)) == js[..i] + js[i + 1..];
  }

  lemma LoopTopKeepsInv(cfg: QueueConfig, l: Lane, processed: nat)
    requires LaneInvWith(cfg, l, 1)
    ensures LaneInv(cfg, LoopTop(l, processed))
  {
    if l.core.queue != [] {
      JobsOfAppend(l.running, Running(l.core.queue[0], processed));
      assert l.core.queue == [l.core.queue[0]] + l.core.queue[1..];
      assert l.started + l.core.queue == (l.started + [l.core.queue[0]]) + l.core.queue[1..];
    }
  }

  lemma ArriveKeepsInv(cfg: QueueConfig, yieldEvery: nat, l: Lane, job: Job)
    requires LaneInv(cfg, l) && job !in l.accepted
    ensures LaneInv(cfg, LaneApply(cfg, yieldEvery, l, Arrive(job)))
  {
    DistinctAppend(l.accepted, job);
    assert (l.started + l.core.queue) + [job] == l.started + (l.core.queue + [job]);
  }

  /** The worker whose job settles is at its loop head. */
  lemma SettledIsAtHead(cfg: QueueConfig, l: Lane, i: nat)
    requires LaneInv(cfg, l) && i < |l.running|
    ensures LaneInvWith(cfg, l.(running := Splice(l.running, i), finished := l.finished + [l.running[i].job]), 1)
  {
    JobsOfRemove(l.running, i);
    hide JobsOf;
  }

  lemma YieldKeepsInv(cfg: QueueConfig, l: Lane, processed: nat)
    requires LaneInvWith(cfg, l, 1)
    ensures LaneInv(cfg, l.(yielding := l.yielding + [processed]))
  {}

  function AfterJob(l: Lane, i: nat): Lane
    requires i < |l.running|
  {
    l.(running := Splice(l.running, i), finished := l.finished + [l.running[i].job])
  }

  lemma SettleApplies(cfg: QueueConfig, yieldEvery: nat, l: Lane, i: nat)
    requires i < |l.running|
    ensures var m, n := AfterJob(l, i), l.running[i].processed + 1;
            LaneApply(cfg, yieldEvery, l, JobSettles(i)) in {m.(yielding := m.yielding + [n]), LoopTop(m, n)}
  {
    hide LoopTop, Splice;
  }

  lemma SettleKeepsInv(cfg: QueueConfig, yieldEvery: nat, l: Lane, i: nat)
    requires LaneInv(cfg, l) && i < |l.running|
    ensures LaneInv(cfg, LaneApply(cfg, yieldEvery, l, JobSettles(i)))
  {
    SettledIsAtHead(cfg, l, i);
    SettleApplies(cfg, yieldEvery, l, i);
    hide LaneInvWith, LaneInv, LaneApply, LoopTop, Splice;
    YieldKeepsInv(cfg, AfterJob(l, i), l.running[i].processed + 1);
    LoopTopKeepsInv(cfg, AfterJob(l, i), l.running[i].processed + 1);
  }

  lemma LaneKeepsInv(cfg: QueueConfig, yieldEvery: nat, l: Lane, step: LaneStep)
    requires LaneInv(cfg, l) && LaneEnabled(l, step)
    ensures LaneInv(cfg, LaneApply(cfg, yieldEvery, l, step))
  {
    match step
    case Arrive(job) => ArriveKeepsInv(cfg, yieldEvery, l, job);
    case WorkerBegins => LoopTopKeepsInv(cfg, l.(scheduled := l.scheduled - 1), 0);
    case JobSettles(i) => SettleKeepsInv(cfg, yieldEvery, l, i);
    case YieldEnds(i) => LoopTopKeepsInv(cfg, l.(yielding := Splice(l.yielding, i)), l.yielding[i]);
  }

  // ---- The three queues together ----------------------------------------------------------------------

  /** A post is routed by its job name; every other step belongs to one queue. */
  datatype Step = Post(job: Job) | Work(q: QueueName, step: LaneStep)

  type Pool = map<QueueName, Lane>

  const ALL_IDLE: Pool := map[Critical := IDLE, Background := IDLE, ReadReceipt := IDLE]

  function Where(step: Step): QueueName {
    match step
    case Post(job) => QueueNameForJob(job.name)
    case Work(q, _) => q
  }

  function What(step: Step): LaneStep {
    match step
    case Post(job) => Arrive(job)
    case Work(_, ls) => ls
  }

  predicate Enabled(p: Pool, step: Step) {
    Where(step) in p && LaneEnabled(p[Where(step)], What(step)) && (step.Work? ==> !step.step.Arrive?)
  }

  function Apply(s: Settings, p: Pool, step: Step): Pool
    requires Enabled(p, step)
  {
    var q := Where(step);
    p[q := LaneApply(ConfigOf(s, q), s.yieldEvery, p[q], What(step))]
  }

  function Run(s: Settings, steps: seq<Step>): Option<Pool> {
    if steps == [] then Some(ALL_IDLE)
    else
      var n := |steps| - 1;
      match Run(s, steps[..n])
      case None => None
      case Some(p) => if Enabled(p, steps[n]) then Some(Apply(s, p, steps[n])) else None
  }

  /** Every accepted job went to the queue its name selects. */
  ghost predicate Routed(q: QueueName, l: Lane) {
    forall j <- l.accepted :: QueueNameForJob(j.name) == q
  }

  ghost predicate PoolInv(s: Settings, p: Pool) {
    forall q: QueueName :: q in p && LaneInv(ConfigOf(s, q), p[q]) && Routed(q, p[q])
  }

  lemma RoutedKept(s: Settings, p: Pool, step: Step)
    requires PoolInv(s, p) && Enabled(p, step)
    ensures Routed(Where(step), Apply(s, p, step)[Where(step)])
  {
    assert Routed(Where(step), p[Where(step)]);
    OnlyArrivalsAreAccepted(ConfigOf(s, Where(step)), s.yieldEvery, p[Where(step)], What(step));
    hide PoolInv, LaneApply, LaneEnabled, LaneInv;
  }

  lemma OnlyArrivalsAreAccepted(cfg: QueueConfig, yieldEvery: nat, l: Lane, step: LaneStep)
    requires LaneEnabled(l, step)
    ensures var m := LaneApply(cfg, yieldEvery, l, step);
            m.accepted == l.accepted || (step.Arrive? && m.accepted == l.accepted + [step.job])
  {
    hide Splice, Starts;
  }

  lemma StepKeepsPool(s: Settings, p: Pool, step: Step)
    requires PoolInv(s, p) && Enabled(p, step)
    ensures PoolInv(s, Apply(s, p, step))
  {
    var q := Where(step);
    var v := Apply(s, p, step);
    RoutedKept(s, p, step);
    hide LaneApply, LaneInv, LaneEnabled, Routed, ConfigOf, What;
    LaneKeepsInv(ConfigOf(s, q), s.yieldEvery, p[q], What(step));
    hide Where;
    forall r: QueueName ensures r in v && LaneInv(ConfigOf(s, r), v[r]) && Routed(r, v[r]) {
      assert r in p && LaneInv(ConfigOf(s, r), p[r]) && Routed(r, p[r]);
    }
  }

  lemma IdlePool(s: Settings)
    ensures PoolInv(s, ALL_IDLE)
  {
    forall q: QueueName ensures q in ALL_IDLE && ALL_IDLE[q] == IDLE {
      match q { case Critical => case Background => case ReadReceipt => }
    }
  }

  lemma {:induction false} EveryRunKeepsInv(s: Settings, steps: seq<Step>)
    ensures Run(s, steps).Some? ==> PoolInv(s, Run(s, steps).value)
  {
    if steps == [] {
      IdlePool(s);
    } else {
      hide PoolInv, Apply, Enabled;
      var n := |steps| - 1;
      EveryRunKeepsInv(s, steps[..n]);
      if Run(s, steps).Some? {
        StepKeepsPool(s, Run(s, steps[..n]).value, steps[n]);
      }
    }
  }

  /**
   * In every run: a non-empty queue has its full number of workers, the bound is never passed, accepted jobs
   * start in acceptance order, each accepted job is queued, running or finished and in exactly one place, and a
   * job is accepted only by the queue its name selects.
   */
  lemma PoolIsWorkConserving(s: Settings, steps: seq<Step>, q: QueueName)
    requires Run(s, steps).Some?
    ensures q in Run(s, steps).value
    ensures var l := Run(s, steps).value[q];
            var workers := if q == Critical then s.concurrency else 2;
            && l.core.active <= workers && (l.core.queue != [] ==> l.core.active == workers)
            && l.accepted == l.started + l.core.queue && Distinct(l.accepted)
            && multiset(l.accepted) == multiset(l.core.queue) + multiset(JobsOf(l.running)) + multiset(l.finished)
            && (forall j <- l.accepted :: QueueNameForJob(j.name) == q)
  {
    EveryRunKeepsInv(s, steps);
    var l := Run(s, steps).value[q];
    assert LaneInv(ConfigOf(s, q), l) && Routed(q, l);
  }

  /** Where a job belongs, by its name. */
  ghost predicate Belongs(job: Job, q: QueueName) {
    match q
    case Background => "fanout:background." <= job.name
    case ReadReceipt => job.name == "fanout.read_receipt"
    case Critical => !("fanout:background." <= job.name) && job.name != "fanout.read_receipt"
  }

  /**
   * In every run a posted job goes to the end of the queue its name selects; it is turned away if and only if that
   * queue is not the critical one and holds 10000 jobs already.  The other queues do not notice.
   */
  lemma PostIsAcceptedExactlyWhen(s: Settings, steps: seq<Step>, job: Job, q: QueueName)
    requires Run(s, steps).Some? && Enabled(Run(s, steps).value, Post(job))
    ensures q in Run(s, steps).value && q in Apply(s, Run(s, steps).value, Post(job))
    ensures var l := Run(s, steps).value[q];
            var m := Apply(s, Run(s, steps).value, Post(job))[q];
            if !Belongs(job, q) then m == l
            else if q != Critical && |l.core.queue| >= 10000
            then m == l.(dropped := l.dropped + [job])
            else m.accepted == l.accepted + [job] && m.core.queue == l.core.queue + [job] && m.dropped == l.dropped
                 && m.running == l.running && m.finished == l.finished
  {
    EveryRunKeepsInv(s, steps);
    NamesDiffer(job.name);
    assert q in Run(s, steps).value;
    hide Starts, Run;
  }

  lemma NamesDiffer(name: string)
    ensures !("fanout:background." <= name && name == "fanout.read_receipt")
  {
    assert "fanout:background."[6] != "fanout.read_receipt"[6];
  }

  /**
   * A worker that has finished a multiple of yieldEvery jobs lets the event loop run before it takes the next one;
   * otherwise it takes the next one at once.
   */
  lemma YieldsExactlyWhen(cfg: QueueConfig, yieldEvery: nat, l: Lane, i: nat)
    requires LaneEnabled(l, JobSettles(i)) && l.core.queue != []
    ensures var m := LaneApply(cfg, yieldEvery, l, JobSettles(i));
            var n := l.running[i].processed + 1;
            if yieldEvery > 0 && n % yieldEvery == 0
            then m.started == l.started && m.yielding == l.yielding + [n]
            else m.started == l.started + [l.core.queue[0]] && m.yielding == l.yielding
  {
    hide Splice;
  }

  /** Critical jobs are never dropped; a droppable queue never grows past its depth. */
  lemma OnlyDroppableQueuesDrop(s: Settings, steps: seq<Step>, q: QueueName)
    requires Run(s, steps).Some?
    ensures q in Run(s, steps).value
    ensures var l := Run(s, steps).value[q];
            if q == Critical then l.dropped == [] else |l.core.queue| <= 10000
  {
    EveryRunKeepsInv(s, steps);
    assert LaneInv(ConfigOf(s, q), Run(s, steps).value[q]);
  }

  predicate IdleLane(l: Lane) { l.scheduled == 0 && l.running == [] && l.yielding == [] }

  ghost predicate Drained(l: Lane) { l.core == Core([], 0) && multiset(l.finished) == multiset(l.accepted) }

  /** With at least one worker allowed, a queue on which nobody is at work has finished every job it accepted. */
  lemma IdleMeansDrained(s: Settings, steps: seq<Step>, q: QueueName)
    requires ConfigOf(s, q).concurrency >= 1
    requires Run(s, steps).Some? && q in Run(s, steps).value && IdleLane(Run(s, steps).value[q])
    ensures Drained(Run(s, steps).value[q])
  {
    EveryRunKeepsInv(s, steps);
    var l := Run(s, steps).value[q];
    assert LaneInv(ConfigOf(s, q), l);
    assert l.started + [] == l.started;
  }

  /** Steps still to come: three for a queued job, two for a running one, one for a worker on its way to the queue. */
  function Work(l: Lane): nat { 3 * |l.core.queue| + 2 * |l.running| + l.scheduled + |l.yielding| }

  lemma LoopTopWork(l: Lane, processed: nat)
    ensures Work(LoopTop(l, processed)) <= Work(l)
  {}

  /** Every step of a worker leaves less to do, so without new jobs the workers come to an end. */
  lemma WorkShrinks(cfg: QueueConfig, yieldEvery: nat, l: Lane, step: LaneStep)
    requires LaneEnabled(l, step) && !step.Arrive?
    ensures Work(LaneApply(cfg, yieldEvery, l, step)) < Work(l)
  {
    match step
    case WorkerBegins => LoopTopWork(l.(scheduled := l.scheduled - 1), 0);
    case JobSettles(i) =>
      LoopTopWork(AfterJob(l, i), l.running[i].processed + 1);
      SettleApplies(cfg, yieldEvery, l, i);
      hide LoopTop, LaneApply;
    case YieldEnds(i) => LoopTopWork(l.(yielding := Splice(l.yielding, i)), l.yielding[i]);
  }

  /** Some worker of a busy queue can make a step. */
  function NextStep(l: Lane): LaneStep {
    if l.scheduled > 0 then WorkerBegins else if l.running != [] then JobSettles(0) else YieldEnds(0)
  }

  lemma PoolExtend(s: Settings, steps: seq<Step>, p: Pool, step: Step)
    requires Run(s, steps) == Some(p) && Enabled(p, step)
    ensures Run(s, steps + [step]) == Some(Apply(s, p, step))
  {
    assert (steps + [step])[..|steps|] == steps;
  }

  /**
   * With a worker allowed, every accepted job can be finished: from every reachable state some continuation, in which
   * the workers of the queue make their steps and nothing else happens, drains it.
   */
  lemma {:induction false} QueueCanDrain(s: Settings, steps: seq<Step>, p: Pool, q: QueueName)
    returns (more: seq<Step>, v: Pool)
    requires ConfigOf(s, q).concurrency >= 1 && Run(s, steps) == Some(p) && q in p
    ensures steps <= more && (forall i :: |steps| <= i < |more| ==> more[i].Work? && more[i].q == q)
    ensures Run(s, more) == Some(v) && q in v && Drained(v[q]) && v[q].accepted == p[q].accepted
    decreases Work(p[q])
  {
    hide ConfigOf, Drained;
    if IdleLane(p[q]) {
      IdleMeansDrained(s, steps, q);
      more, v := steps, p;
    } else {
      var step := NextStep(p[q]);
      assert LaneEnabled(p[q], step) && !step.Arrive?;
      WorkShrinks(ConfigOf(s, q), s.yieldEvery, p[q], step);
      OnlyArrivalsAreAccepted(ConfigOf(s, q), s.yieldEvery, p[q], step);
      PoolExtend(s, steps, p, Step.Work(q, step));
      hide Run, LaneApply, LaneEnabled, NextStep;
      more, v := QueueCanDrain(s, steps + [Step.Work(q, step)], Apply(s, p, Step.Work(q, step)), q);
    }
  }

  /** With none, every accepted job stays queued for ever. */
  lemma NoWorkerKeepsEverything(s: Settings, steps: seq<Step>, q: QueueName)
    requires ConfigOf(s, q).concurrency == 0 && Run(s, steps).Some?
    ensures q in Run(s, steps).value
    ensures var l := Run(s, steps).value[q]; IdleLane(l) && l.core.queue == l.accepted && l.finished == []
  {
    EveryRunKeepsInv(s, steps);
    var l := Run(s, steps).value[q];
    assert LaneInv(ConfigOf(s, q), l);
    assert |multiset(l.started)| == |l.started| && |multiset(l.finished)| == |l.finished|;
    assert l.started == [] by { NothingStarted(s, steps, q); }
    assert multiset(l.finished) == multiset{};
  }

  lemma {:induction false} NothingStarted(s: Settings, steps: seq<Step>, q: QueueName)
    requires ConfigOf(s, q).concurrency == 0 && Run(s, steps).Some?
    ensures q in Run(s, steps).value && Run(s, steps).value[q].started == []
  {
    EveryRunKeepsInv(s, steps);
    if steps == [] {
      IdlePool(s);
    } else {
      var n := |steps| - 1;
      var p := Run(s, steps[..n]).value;
      NothingStarted(s, steps[..n], q);
      EveryRunKeepsInv(s, steps[..n]);
      assert LaneInv(ConfigOf(s, q), p[q]);
      hide LaneInv;
      if Where(steps[n]) == q { IdleLaneStartsNothing(ConfigOf(s, q), s.yieldEvery, p[q], What(steps[n])); }
    }
  }

  lemma IdleLaneStartsNothing(cfg: QueueConfig, yieldEvery: nat, l: Lane, step: LaneStep)
    requires cfg.concurrency == 0 && LaneInv(cfg, l) && LaneEnabled(l, step)
    ensures LaneApply(cfg, yieldEvery, l, step).started == l.started
  {}

  /** "An idle queue is a drained queue" holds in all runs if and only if the queue may have a worker at all. */
  lemma IdleMeansDrainedExactlyWhen(s: Settings, q: QueueName)
    ensures (forall steps :: Run(s, steps).Some? && q in Run(s, steps).value && IdleLane(Run(s, steps).value[q])
               ==> Drained(Run(s, steps).value[q]))
            <==> ConfigOf(s, q).concurrency >= 1
  {
    if ConfigOf(s, q).concurrency >= 1 {
      forall steps | Run(s, steps).Some? && q in Run(s, steps).value && IdleLane(Run(s, steps).value[q])
        ensures Drained(Run(s, steps).value[q])
      {
        IdleMeansDrained(s, steps, q);
      }
    } else {
      StuckJob(s, Job(0, ""));
      assert QueueNameForJob("") == Critical;
    }
  }

  /** The stuck run: one critical job is posted. */
  lemma StuckJob(s: Settings, job: Job)
    requires s.concurrency == 0 && QueueNameForJob(job.name) == Critical
    ensures var run := Run(s, [Post(job)]);
            && run.Some? && Critical in run.value
            && IdleLane(run.value[Critical]) && run.value[Critical].core.queue == [job] && !Drained(run.value[Critical])
  {
    assert [Post(job)][..0] == [];
    assert Run(s, []) == Some(ALL_IDLE);
  }

  /** A worker step finds its queue with at least one worker counted, so the count's clamp at 0 never fires. */
  lemma WorkersAreCounted(s: Settings, steps: seq<Step>, step: Step)
    requires Run(s, steps).Some? && Enabled(Run(s, steps).value, step) && step.Work?
    ensures Run(s, steps).value[step.q].core.active >= 1
  {
    EveryRunKeepsInv(s, steps);
    var l := Run(s, steps).value[step.q];
    assert LaneInv(ConfigOf(s, step.q), l) && LaneEnabled(l, step.step);
    hide Run, Enabled, LaneInv, LaneEnabled, PoolInv;
    BusyLaneIsActive(ConfigOf(s, step.q), l, step.step);
  }

  lemma BusyLaneIsActive(cfg: QueueConfig, l: Lane, step: LaneStep)
    requires LaneInv(cfg, l) && LaneEnabled(l, step) && !step.Arrive?
    ensures l.core.active >= 1
  {}
}
