/**
 * Coalescing of deferred last-message pointers inside one process (repointLastMessage.ts): a pending payload per
 * target, a set of targets with a drain job, and the drain jobs themselves.
 */
module PointerCoalescing {
  import opened Basics

  type Target = string

  /** `millis` is absent when createdAt does not parse as a date. */
  datatype Payload = Payload(messageId: string, authorId: Option<string>, millis: Option<int>)

  function SortValue(p: Payload): int {
    match p.millis
    case None => 0
    case Some(v) => v
  }

  /** The strict order on (time, id). */
  predicate Less(a: Payload, b: Payload) {
    if SortValue(a) != SortValue(b) then SortValue(a) < SortValue(b) else StrLess(a.messageId, b.messageId)
  }

  /** Payloads the order cannot tell apart. */
  predicate SameKey(a: Payload, b: Payload) {
    SortValue(a) == SortValue(b) && a.messageId == b.messageId
  }

  lemma LessIsTotal(a: Payload, b: Payload)
    ensures Less(a, b) || Less(b, a) || SameKey(a, b)
    ensures !(Less(a, b) && Less(b, a)) && (SameKey(a, b) ==> !Less(a, b))
  {
    StrLessTotal(a.messageId, b.messageId);
  }

  lemma LessIsTransitive(a: Payload, b: Payload, c: Payload)
    requires Less(a, b) && Less(b, c)
    ensures Less(a, c)
  {
    if SortValue(a) == SortValue(b) == SortValue(c) {
      StrLessTransitive(a.messageId, b.messageId, c.messageId);
    }
  }

  /** shouldReplaceLastMessageUpdate */
  predicate ShouldReplace(current: Option<Payload>, next: Payload) {
    match current
    case None => true
    case Some(c) =>
      if SortValue(next) != SortValue(c) then SortValue(next) > SortValue(c) else StrLess(c.messageId, next.messageId)
  }

  function Get(m: map<Target, Payload>, t: Target): Option<Payload> {
    if t in m then Some(m[t]) else None
  }

  // ---- The module state: pending map and queued set ---------------------------------------------------

  datatype Buffers = Buffers(pending: map<Target, Payload>, queued: set<Target>)

  /** scheduleDeferredPointerUpdate; the flag says that a drain job is handed to the side-effect queue. */
  function Scheduled(b: Buffers, t: Target, p: Payload): (Buffers, bool) {
    if !ShouldReplace(Get(b.pending, t), p) then (b, false)
    else (Buffers(b.pending[t := p], b.queued + {t}), t !in b.queued)
  }

  /** The `finally` block of a drain job: it ends its claim and schedules whatever is pending again. */
  function Finished(b: Buffers, t: Target): (Buffers, bool) {
    var c := b.(queued := b.queued - {t});
    if t in c.pending then Scheduled(c, t, c.pending[t]) else (c, false)
  }

  /** The re-schedule in `finally` offers the pending payload to itself, which the strict order refuses. */
  lemma RescheduleIsNoOp(b: Buffers, t: Target)
    ensures t in b.pending ==> Scheduled(b, t, b.pending[t]) == (b, false)
    ensures Finished(b, t) == (b.(queued := b.queued - {t}), false)
  {
    if t in b.pending {
      LessIsTotal(b.pending[t], b.pending[t]);
    }
  }

  class DeferredPointers {
    var pending: map<Target, Payload>
    var queued: set<Target>

    ghost function View(): Buffers
      reads this
    {
      Buffers(pending, queued)
    }

    constructor ()
      ensures View() == Buffers(map[], {})
    {
      pending, queued := map[], {};
    }

    method Schedule(t: Target, p: Payload) returns (startsJob: bool)
      modifies this
      ensures (View(), startsJob) == Scheduled(old(View()), t, p)
    {
      var current := Get(pending, t);
      if !ShouldReplace(current, p) {
        return false;
      }
      pending := pending[t := p];
      if t in queued {
        assert queued + {t} == queued;
        return false;
      }
      queued := queued + {t};
      return true;
    }

    /** One turn of the drain loop takes the payload out before writing it. */
    method Take(t: Target) returns (taken: Option<Payload>)
      modifies this`pending
      ensures taken == Get(old(pending), t)
      ensures View() == Buffers(old(pending) - {t}, old(queued))
    {
      taken := Get(pending, t);
      pending := pending - {t};
    }

    /** Ending a job leaves a payload that arrived meanwhile in place without any job for it. */
    method Finish(t: Target) returns (startsJob: bool)
      modifies this
      ensures !startsJob && View() == Buffers(old(pending), old(queued) - {t})
    {
      queued := queued - {t};
      startsJob := false;
      if t in pending {
        RescheduleIsNoOp(View(), t);
        startsJob := Schedule(t, pending[t]);
      }
    }
  }

  // ---- Runs: posts and drain jobs interleaved ---------------------------------------------------------

  /** Enqueued: waiting in the side-effect queue.  Writing: awaiting Redis.  Returning: before `finally`. */
  datatype JobPhase = Enqueued | Writing(p: Payload) | Returning

  datatype Job = Job(target: Target, phase: JobPhase)

  /** `since` lists what was scheduled for a target after its pending payload was last taken. */
  datatype Local = Local(buffers: Buffers, jobs: map<nat, Job>, since: map<Target, seq<Payload>>)

  datatype Step =
    | Post(t: Target, p: Payload, j: nat)   // j names the job if this starts one
    | Begin(j: nat)
    | Wrote(j: nat, ok: bool)
    | End(j: nat)

  const START := Local(Buffers(map[], {}), map[], map[])

  function Since(l: Local, t: Target): seq<Payload> { if t in l.since then l.since[t] else [] }

  predicate Enabled(l: Local, step: Step) {
    match step
    case Post(_, _, j) => j !in l.jobs
    case Begin(j) => j in l.jobs && l.jobs[j].phase == Enqueued
    case Wrote(j, _) => j in l.jobs && l.jobs[j].phase.Writing?
    case End(j) => j in l.jobs && l.jobs[j].phase == Returning
  }

  /** The head of the drain loop: take the pending payload and write it, or return. */
  function LoopTop(l: Local, j: nat): Local
    requires j in l.jobs
  {
    var t := l.jobs[j].target;
    match Get(l.buffers.pending, t)
    case None => l.(jobs := l.jobs[j := Job(t, Returning)])
    case Some(p) =>
      Local(l.buffers.(pending := l.buffers.pending - {t}), l.jobs[j := Job(t, Writing(p))], l.since[t := []])
  }

  function Apply(l: Local, step: Step): Local
    requires Enabled(l, step)
  {
    match step
    case Post(t, p, j) =>
      var (b, starts) := Scheduled(l.buffers, t, p);
      Local(b, if starts then l.jobs[j := Job(t, Enqueued)] else l.jobs, l.since[t := Since(l, t) + [p]])
    case Begin(j) => LoopTop(l, j)
    case Wrote(j, ok) =>
      if ok && l.jobs[j].target in l.buffers.pending then LoopTop(l, j)
      else l.(jobs := l.jobs[j := Job(l.jobs[j].target, Returning)])
    case End(j) =>
      var (b, starts) := Finished(l.buffers, l.jobs[j].target);
      Local(b, if starts then l.jobs[j := Job(l.jobs[j].target, Enqueued)] else l.jobs - {j}, l.since)
  }

  function Run(steps: seq<Step>): Option<Local> {
    if steps == [] then Some(START)
    else
      var n := |steps| - 1;
      match Run(steps[..n])
      case None => None
      case Some(l) => if Enabled(l, steps[n]) then Some(Apply(l, steps[n])) else None
  }

  predicate IsMaximum(p: Payload, s: seq<Payload>) {
    p in s && forall q <- s :: !Less(p, q)
  }

  ghost predicate Inv(l: Local) {
    && (forall j <- l.jobs :: l.jobs[j].target in l.buffers.queued)
    && (forall t <- l.buffers.queued :: exists j :: j in l.jobs && l.jobs[j].target == t)
    && (forall i, j :: i in l.jobs && j in l.jobs && i != j ==> l.jobs[i].target != l.jobs[j].target)
    && (forall t :: t in l.buffers.pending <==> Since(l, t) != [])
    && (forall t <- l.buffers.pending :: IsMaximum(l.buffers.pending[t], Since(l, t)))
  }

  lemma MaximumGrows(p: Payload, s: seq<Payload>, q: Payload)
    requires IsMaximum(p, s)
    ensures IsMaximum(if ShouldReplace(Some(p), q) then q else p, s + [q])
  {
    LessIsTotal(p, q);
    LessIsTotal(q, q);
    forall r <- s + [q] ensures !Less(if ShouldReplace(Some(p), q) then q else p, r) {
      if r in s && ShouldReplace(Some(p), q) && Less(q, r) {
        LessIsTransitive(p, q, r);
      }
    }
  }

  lemma PostKeepsMaximum(l: Local, t: Target, p: Payload, j: nat)
    requires Inv(l) && j !in l.jobs
    ensures var m := Apply(l, Post(t, p, j));
            && (t in m.buffers.pending <==> Since(m, t) != [])
            && (t in m.buffers.pending ==> IsMaximum(m.buffers.pending[t], Since(m, t)))
  {
    if t in l.buffers.pending {
      MaximumGrows(l.buffers.pending[t], Since(l, t), p);
    } else {
      LessIsTotal(p, p);
      assert Since(l, t) + [p] == [p];
    }
    hide Less;
  }

  lemma PostKeepsOthers(l: Local, t: Target, p: Payload, j: nat, u: Target)
    requires j !in l.jobs && u != t
    ensures var m := Apply(l, Post(t, p, j));
            && (u in m.buffers.pending <==> u in l.buffers.pending)
            && (u in m.buffers.pending ==> m.buffers.pending[u] == l.buffers.pending[u])
            && Since(m, u) == Since(l, u)
  {
    hide ShouldReplace;
  }

  lemma PostKeepsJobs(l: Local, t: Target, p: Payload, j: nat)
    requires Inv(l) && j !in l.jobs
    ensures var m := Apply(l, Post(t, p, j));
            && (forall k <- m.jobs :: m.jobs[k].target in m.buffers.queued)
            && (forall u <- m.buffers.queued :: exists k :: k in m.jobs && m.jobs[k].target == u)
            && (forall i, k :: i in m.jobs && k in m.jobs && i != k ==> m.jobs[i].target != m.jobs[k].target)
  {
    var m := Apply(l, Post(t, p, j));
    hide ShouldReplace, IsMaximum, Since;
    forall u <- m.buffers.queued ensures exists k :: k in m.jobs && m.jobs[k].target == u {
      if u in l.buffers.queued {
        var k :| k in l.jobs && l.jobs[k].target == u;
        assert k in m.jobs && m.jobs[k].target == u;
      } else {
        assert j in m.jobs && m.jobs[j].target == u;
      }
    }
  }

  lemma PostKeepsInv(l: Local, t: Target, p: Payload, j: nat)
    requires Inv(l) && j !in l.jobs
    ensures Inv(Apply(l, Post(t, p, j)))
  {
    var m := Apply(l, Post(t, p, j));
    PostKeepsJobs(l, t, p, j);
    PostKeepsMaximum(l, t, p, j);
    hide Apply, Since, IsMaximum;
    forall u ensures u in m.buffers.pending <==> Since(m, u) != [] {
      if u != t { PostKeepsOthers(l, t, p, j, u); }
    }
    forall u <- m.buffers.pending ensures IsMaximum(m.buffers.pending[u], Since(m, u)) {
      if u != t { PostKeepsOthers(l, t, p, j, u); }
    }
  }

  /** The jobs are those of before, up to the phase of one of them. */
  lemma SameTargets(l: Local, m: Local, j: nat, phase: JobPhase)
    requires Inv(l) && j in l.jobs && m.jobs == l.jobs[j := Job(l.jobs[j].target, phase)]
    requires m.buffers.queued == l.buffers.queued
    ensures forall u <- m.buffers.queued :: exists k :: k in m.jobs && m.jobs[k].target == u
  {
    forall u <- m.buffers.queued ensures exists k :: k in m.jobs && m.jobs[k].target == u {
      var k :| k in l.jobs && l.jobs[k].target == u;
      assert k in m.jobs && m.jobs[k].target == u;
    }
  }

  lemma LoopTopKeepsInv(l: Local, j: nat)
    requires Inv(l) && j in l.jobs
    ensures Inv(LoopTop(l, j))
  {
    var m := LoopTop(l, j);
    SameTargets(l, m, j, m.jobs[j].phase);
    hide IsMaximum;
    forall u <- m.buffers.pending ensures IsMaximum(m.buffers.pending[u], Since(m, u)) {
      assert u in l.buffers.pending && Since(m, u) == Since(l, u);
    }
  }

  lemma ReturnKeepsInv(l: Local, j: nat)
    requires Inv(l) && j in l.jobs
    ensures Inv(l.(jobs := l.jobs[j := Job(l.jobs[j].target, Returning)]))
  {
    var m := l.(jobs := l.jobs[j := Job(l.jobs[j].target, Returning)]);
    forall u <- m.buffers.queued ensures exists k :: k in m.jobs && m.jobs[k].target == u {
      var k :| k in l.jobs && l.jobs[k].target == u;
      assert k in m.jobs && m.jobs[k].target == u;
    }
    assert forall u :: Since(m, u) == Since(l, u);
  }

  lemma EndKeepsInv(l: Local, j: nat)
    requires Inv(l) && j in l.jobs
    ensures Inv(Local(l.buffers.(queued := l.buffers.queued - {l.jobs[j].target}), l.jobs - {j}, l.since))
  {
    var m := Local(l.buffers.(queued := l.buffers.queued - {l.jobs[j].target}), l.jobs - {j}, l.since);
    forall u <- m.buffers.queued ensures exists k :: k in m.jobs && m.jobs[k].target == u {
      var k :| k in l.jobs && l.jobs[k].target == u;
      assert k in m.jobs && m.jobs[k].target == u;
    }
    assert forall u :: Since(m, u) == Since(l, u);
  }

  lemma StepKeepsInv(l: Local, step: Step)
    requires Inv(l) && Enabled(l, step)
    ensures Inv(Apply(l, step))
  {
    hide Inv, LoopTop, Finished;
    match step
    case Post(t, p, j) => PostKeepsInv(l, t, p, j);
    case Begin(j) => LoopTopKeepsInv(l, j);
    case Wrote(j, ok) => LoopTopKeepsInv(l, j); ReturnKeepsInv(l, j);
    case End(j) => RescheduleIsNoOp(l.buffers, l.jobs[j].target); EndKeepsInv(l, j);
  }

  lemma {:induction false} EveryRunKeepsInv(steps: seq<Step>)
    ensures Run(steps).Some? ==> Inv(Run(steps).value)
  {
    if steps == [] {
    } else {
      var n := |steps| - 1;
      EveryRunKeepsInv(steps[..n]);
      if Run(steps).Some? {
        StepKeepsInv(Run(steps[..n]).value, steps[n]);
      }
    }
  }

  /** In every run the pending payload is the maximum of everything scheduled since the target was last taken. */
  lemma PendingIsMaximum(steps: seq<Step>, t: Target)
    requires Run(steps).Some?
    ensures var l := Run(steps).value;
            && (t in l.buffers.pending <==> Since(l, t) != [])
            && (t in l.buffers.pending ==> IsMaximum(l.buffers.pending[t], Since(l, t)))
  {
    EveryRunKeepsInv(steps);
  }

  /** q is not a later message than p, by their times and ids alone; without a time it counts as from 1970. */
  predicate NotLater(q: Payload, p: Payload) {
    match (q.millis, p.millis)
    case (Some(u), Some(v)) => u < v || (u == v && !StrLess(p.messageId, q.messageId))
    case (Some(u), None) => u < 0 || (u == 0 && !StrLess(p.messageId, q.messageId))
    case (None, Some(v)) => 0 < v || (v == 0 && !StrLess(p.messageId, q.messageId))
    case (None, None) => !StrLess(p.messageId, q.messageId)
  }

  /**
   * Newer wins.  In every run no message scheduled since the target was last taken is later than the pending one, so
   * of messages with a positive time the pending one has the greatest; one without a time never displaces them.
   */
  lemma PendingIsNewest(steps: seq<Step>, t: Target, q: Payload)
    requires Run(steps).Some? && q in Since(Run(steps).value, t)
    ensures t in Run(steps).value.buffers.pending
    ensures var p := Run(steps).value.buffers.pending[t];
            && p in Since(Run(steps).value, t) && NotLater(q, p)
            && (q.millis.Some? && q.millis.value > 0 ==> p.millis.Some? && p.millis.value >= q.millis.value)
  {
    PendingIsMaximum(steps, t);
    var p := Run(steps).value.buffers.pending[t];
    assert !Less(p, q);
    hide Run, Since;
  }

  /** What one call does to a pending payload: the new one replaces it exactly if it is later. */
  lemma ReplacesExactlyWhen(b: Buffers, t: Target, p: Payload)
    requires t in b.pending && p != b.pending[t]
    ensures Scheduled(b, t, p).0.pending == if NotLater(p, b.pending[t]) then b.pending else b.pending[t := p]
  {
    StrLessTotal(p.messageId, b.pending[t].messageId);
  }

  /** In every run each target has at most one live drain job, and `queued` is exactly the targets that have one. */
  lemma OneJobPerTarget(steps: seq<Step>, t: Target)
    requires Run(steps).Some?
    ensures var l := Run(steps).value;
            && (t in l.buffers.queued <==> exists j :: j in l.jobs && l.jobs[j].target == t)
            && (forall i, j :: i in l.jobs && j in l.jobs && l.jobs[i].target == l.jobs[j].target ==> i == j)
  {
    EveryRunKeepsInv(steps);
  }

  /** The arrival order does not matter: two orders of the same payloads have the same maximum key. */
  lemma ArrivalOrderIrrelevant(a: seq<Payload>, b: seq<Payload>, p: Payload, q: Payload)
    requires multiset(a) == multiset(b) && IsMaximum(p, a) && IsMaximum(q, b)
    ensures SameKey(p, q)
  {
    assert p in multiset(b) && q in multiset(a);
    LessIsTotal(p, q);
  }

  /** A payload is waiting and nothing will drain it. */
  predicate Stranded(l: Local, t: Target) { t in l.buffers.pending && t !in l.buffers.queued }

  /**
   * "Pending implies a queued job" is false.  Exactly when: a target becomes stranded when its job ends while a
   * payload is pending, and it stays so until a payload that replaces the pending one is posted.
   */
  lemma StrandedExactlyWhen(steps: seq<Step>, step: Step, t: Target)
    requires Run(steps).Some? && Enabled(Run(steps).value, step)
    ensures var l := Run(steps).value;
            Stranded(Apply(l, step), t) <==>
            || (step.End? && l.jobs[step.j].target == t && t in l.buffers.pending)
            || (Stranded(l, t) && !(step.Post? && step.t == t && ShouldReplace(Get(l.buffers.pending, t), step.p)))
  {
    EveryRunKeepsInv(steps);
    var l := Run(steps).value;
    if !step.Post? {
      RescheduleIsNoOp(l.buffers, l.jobs[step.j].target);
    }
  }

  lemma Go(steps: seq<Step>, l: Local, step: Step)
    requires Run(steps) == Some(l) && Enabled(l, step)
    ensures Run(steps + [step]) == Some(Apply(l, step))
  {
    assert (steps + [step])[..|steps|] == steps;
  }

  /** The longer run adds no post and no failing write. */
  predicate GoesOnWell(steps: seq<Step>, more: seq<Step>) {
    steps <= more
    && forall i :: |steps| <= i < |more| ==> !more[i].Post? && (more[i].Wrote? ==> more[i].ok)
  }

  /** Job j takes what is pending, if anything, and writes it. */
  lemma TakesPending(steps: seq<Step>, l: Local, j: nat) returns (more: seq<Step>, m: Local)
    requires Run(steps) == Some(l) && j in l.jobs && l.jobs[j].phase != Returning
    ensures Run(more) == Some(m) && GoesOnWell(steps, more) && j in m.jobs && m.jobs[j].target == l.jobs[j].target
    ensures l.jobs[j].target !in m.buffers.pending && m.buffers.queued == l.buffers.queued
    ensures m.jobs[j].phase == match Get(l.buffers.pending, l.jobs[j].target)
                               case Some(p) => Writing(p)
                               case None => Returning
  {
    var step := if l.jobs[j].phase == Enqueued then Begin(j) else Wrote(j, true);
    Go(steps, l, step);
    more, m := steps + [step], Apply(l, step);
    hide Run;
  }

  /**
   * A job that is still in its loop writes what is pending and leaves nothing behind, as long as its writes work and
   * nothing new is posted: in the end the target is neither pending nor queued.
   */
  lemma JobDrains(steps: seq<Step>, l: Local, j: nat)
    returns (taken: seq<Step>, mid: Local, end: seq<Step>, m: Local)
    requires Run(steps) == Some(l) && j in l.jobs && l.jobs[j].phase != Returning
    ensures Run(taken) == Some(mid) && GoesOnWell(steps, taken) && GoesOnWell(taken, end)
    ensures var t := l.jobs[j].target;
            && (t in l.buffers.pending ==> j in mid.jobs && mid.jobs[j] == Job(t, Writing(l.buffers.pending[t])))
            && Run(end) == Some(m) && t !in m.buffers.pending && t !in m.buffers.queued && j !in m.jobs
  {
    taken, mid := TakesPending(steps, l, j);
    end, m := taken, mid;
    if m.jobs[j].phase != Returning { end, m := TakesPending(end, m, j); }
    Go(end, m, End(j));
    RescheduleIsNoOp(m.buffers, m.jobs[j].target);
    hide Run;
    end, m := end + [End(j)], Apply(m, End(j));
  }

  lemma StrandingStates(t: Target, p: Payload, q: Payload)
    requires Less(p, q)
    ensures Enabled(START, Post(t, p, 0))
    ensures var l1 := Apply(START, Post(t, p, 0));
            Enabled(l1, Begin(0)) &&
            var l2 := Apply(l1, Begin(0));
            l2 == Local(Buffers(map[], {t}), map[0 := Job(t, Writing(p))], map[t := []])
  {
    assert map[t := p] - {t} == map[];
  }

  lemma StrandingEnd(t: Target, p: Payload, q: Payload)
    ensures var l2 := Local(Buffers(map[], {t}), map[0 := Job(t, Writing(p))], map[t := []]);
            Enabled(l2, Post(t, q, 1)) &&
            var l3 := Apply(l2, Post(t, q, 1));
            Enabled(l3, Wrote(0, false)) &&
            var l4 := Apply(l3, Wrote(0, false));
            Enabled(l4, End(0)) && Stranded(Apply(l4, End(0)), t)
  {
    RescheduleIsNoOp(Buffers(map[t := q], {t}), t);
  }

  /** A run of five steps that strands a payload: it arrives while the failed write of another is in flight. */
  lemma StrandingRun(t: Target, p: Payload, q: Payload)
    requires Less(p, q)
    ensures var run := Run([Post(t, p, 0), Begin(0), Post(t, q, 1), Wrote(0, false), End(0)]);
            run.Some? && Stranded(run.value, t)
  {
    StrandingStates(t, p, q);
    StrandingEnd(t, p, q);
    hide Apply, Enabled, Stranded;
    var l1 := Apply(START, Post(t, p, 0));
    var l2 := Apply(l1, Begin(0));
    var l3 := Apply(l2, Post(t, q, 1));
    var l4 := Apply(l3, Wrote(0, false));
    var steps := [Post(t, p, 0), Begin(0), Post(t, q, 1), Wrote(0, false), End(0)];
    Extend(steps, 0, START);
    Extend(steps, 1, l1);
    Extend(steps, 2, l2);
    Extend(steps, 3, l3);
    Extend(steps, 4, l4);
    assert steps[..5] == steps;
  }

  lemma Extend(steps: seq<Step>, n: nat, l: Local)
    requires n < |steps| && (n == 0 ==> l == START) && (n > 0 ==> Run(steps[..n]) == Some(l)) && Enabled(l, steps[n])
    ensures Run(steps[..n + 1]) == Some(Apply(l, steps[n]))
  {
    assert steps[..n + 1][..n] == steps[..n];
  }
}
