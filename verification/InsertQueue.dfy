/**
 * The local wait queues of one worker (channelInsertConcurrency.ts): a map of FIFO queues, the gate promises
 * that have been resolved, the global waiter count and the memory of recent timeouts.  In every run of the cluster
 * the queues of each worker hold exactly the lines of the cluster model.
 */
module InsertQueue {
  import opened Basics
  import opened InsertLockCluster

  datatype ChannelQueue = ChannelQueue(entries: seq<Ticket>, active: bool)

  /** Sum of the queue lengths. */
  ghost function TotalWaiting(m: map<Channel, ChannelQueue>): nat {
    if m == map[] then 0
    else
      var ch :| ch in m;
      |m[ch].entries| + TotalWaiting(m - {ch})
  }

  lemma {:induction false} TotalWithout(m: map<Channel, ChannelQueue>, ch: Channel)
    requires ch in m
    ensures TotalWaiting(m) == |m[ch].entries| + TotalWaiting(m - {ch})
    decreases m
  {
    var pick :| pick in m && TotalWaiting(m) == |m[pick].entries| + TotalWaiting(m - {pick});
    if pick != ch {
      TotalWithout(m - {pick}, ch);
      TotalWithout(m - {ch}, pick);
      assert m - {pick} - {ch} == m - {ch} - {pick};
    }
  }

  lemma TotalUpdated(m: map<Channel, ChannelQueue>, ch: Channel, q: ChannelQueue)
    ensures TotalWaiting(m[ch := q]) ==
            TotalWaiting(m) + |q.entries| - (if ch in m then |m[ch].entries| else 0)
  {
    TotalWithout(m[ch := q], ch);
    if ch in m {
      TotalWithout(m, ch);
      assert m[ch := q] - {ch} == m - {ch};
    } else {
      assert m[ch := q] - {ch} == m;
    }
  }

  ghost predicate QueueOk(cap: nat, q: ChannelQueue, resolved: set<Ticket>) {
    && q.active && q.entries != [] && |q.entries| <= cap && Distinct(q.entries)
    && (forall i :: 0 <= i < |q.entries| ==> (q.entries[i] in resolved <==> i == 0))
  }

  ghost predicate NoShared(a: ChannelQueue, b: ChannelQueue) {
    forall t :: t in a.entries ==> t !in b.entries
  }

  /** Every stored queue is non-empty, active and within the cap; exactly its head has been admitted. */
  ghost predicate QueuesOk(cap: nat, m: map<Channel, ChannelQueue>, resolved: set<Ticket>) {
    && (forall ch <- m :: QueueOk(cap, m[ch], resolved))
    && (forall a, b :: a in m && b in m && a != b ==> NoShared(m[a], m[b]))
  }

  ghost predicate Unknown(m: map<Channel, ChannelQueue>, resolved: set<Ticket>, t: Ticket) {
    t !in resolved && forall ch <- m :: t !in m[ch].entries
  }

  lemma JoinKeepsQueues(cap: nat, m: map<Channel, ChannelQueue>, resolved: set<Ticket>, ch: Channel, t: Ticket)
    requires QueuesOk(cap, m, resolved) && Unknown(m, resolved, t)
    requires ch in m && |m[ch].entries| < cap
    ensures QueuesOk(cap, m[ch := ChannelQueue(m[ch].entries + [t], true)], resolved)
  {
    DistinctAppend(m[ch].entries, t);
  }

  lemma OpenKeepsQueues(cap: nat, m: map<Channel, ChannelQueue>, resolved: set<Ticket>, ch: Channel, t: Ticket)
    requires QueuesOk(cap, m, resolved) && Unknown(m, resolved, t) && ch !in m && cap >= 1
    ensures QueuesOk(cap, m[ch := ChannelQueue([t], true)], resolved + {t})
  {}

  lemma CloseKeepsQueues(cap: nat, m: map<Channel, ChannelQueue>, resolved: set<Ticket>, ch: Channel)
    requires QueuesOk(cap, m, resolved)
    ensures QueuesOk(cap, m - {ch}, resolved)
  {}

  lemma LeaveKeepsQueues(cap: nat, m: map<Channel, ChannelQueue>, resolved: set<Ticket>, ch: Channel, t: Ticket)
    requires QueuesOk(cap, m, resolved) && ch in m && t in m[ch].entries
    requires Without(m[ch].entries, t) != []
    ensures var rest := Without(m[ch].entries, t);
            QueuesOk(cap, m[ch := ChannelQueue(rest, true)], resolved + {rest[0]})
  {
    var line := m[ch].entries;
    var rest := Without(line, t);
    assert QueueOk(cap, m[ch], resolved);
    WithoutMembers(line, t);
    assert rest[0] in line;
    forall i | 0 <= i < |rest| ensures rest[i] in resolved + {rest[0]} <==> i == 0 {
      assert rest[i] in line;
    }
    var m' := m[ch := ChannelQueue(rest, true)];
    forall h <- m' ensures QueueOk(cap, m'[h], resolved + {rest[0]}) {
      if h != ch {
        assert NoShared(m[ch], m[h]) && QueueOk(cap, m[h], resolved);
      }
    }
    forall a, b | a in m' && b in m' && a != b ensures NoShared(m'[a], m'[b]) {
      assert NoShared(m[a], m[b]);
    }
  }

  // ---- The queues of one worker as a value -------------------------------------------------------------

  datatype Queues = Queues(queues: map<Channel, ChannelQueue>, waitersTotal: int, resolved: set<Ticket>)

  const NO_QUEUES := Queues(map[], 0, {})

  /** The line of a channel as the cluster model sees it. */
  function Line(q: Queues, ch: Channel): seq<Ticket> { if ch in q.queues then q.queues[ch].entries else [] }

  /** An accepted call joins the end of its line; if the queue was not active, its first entry is admitted. */
  function Joined(q: Queues, ch: Channel, t: Ticket): Queues {
    var entries := Line(q, ch) + [t];
    Queues(q.queues[ch := ChannelQueue(entries, true)], q.waitersTotal + 1,
           if ch in q.queues && q.queues[ch].active then q.resolved else q.resolved + {entries[0]})
  }

  /** The owner of an entry leaves: the entry is cut out and the next head, if any, is admitted. */
  function Left(q: Queues, ch: Channel, t: Ticket): Queues {
    var total := Max(0, q.waitersTotal - 1);
    var rest := Without(Line(q, ch), t);
    if ch !in q.queues then q.(waitersTotal := total)
    else if rest == [] then Queues(q.queues - {ch}, total, q.resolved)
    else Queues(q.queues[ch := ChannelQueue(rest, true)], total, q.resolved + {rest[0]})
  }

  /** Joining and leaving change one line. */
  lemma JoinedLine(q: Queues, ch: Channel, t: Ticket, h: Channel)
    ensures Line(Joined(q, ch, t), h) == if h == ch then Line(q, ch) + [t] else Line(q, h)
  {}

  lemma LeftLine(q: Queues, ch: Channel, t: Ticket, h: Channel)
    ensures Line(Left(q, ch, t), h) == if h == ch then Without(Line(q, ch), t) else Line(q, h)
  {}

  /** The waiter count is the sum of the queue lengths. */
  ghost predicate QueuesInv(cap: nat, q: Queues) {
    QueuesOk(cap, q.queues, q.resolved) && q.waitersTotal == TotalWaiting(q.queues)
  }

  lemma JoinKeepsInv(cap: nat, q: Queues, ch: Channel, t: Ticket)
    requires QueuesInv(cap, q) && Unknown(q.queues, q.resolved, t) && |Line(q, ch)| < cap
    ensures QueuesInv(cap, Joined(q, ch, t))
  {
    assert ch in q.queues ==> QueueOk(cap, q.queues[ch], q.resolved);
    TotalUpdated(q.queues, ch, ChannelQueue(Line(q, ch) + [t], true));
    if ch in q.queues {
      JoinKeepsQueues(cap, q.queues, q.resolved, ch, t);
    } else {
      OpenKeepsQueues(cap, q.queues, q.resolved, ch, t);
      assert [] + [t] == [t];
    }
    hide QueuesOk, QueueOk, TotalWaiting, Unknown;
  }

  lemma LeaveKeepsInv(cap: nat, q: Queues, ch: Channel, t: Ticket)
    requires QueuesInv(cap, q) && t in Line(q, ch)
    ensures QueuesInv(cap, Left(q, ch, t))
    ensures Left(q, ch, t).waitersTotal == q.waitersTotal - 1 >= 0
  {
    var rest := Without(Line(q, ch), t);
    assert |rest| == |Line(q, ch)| - 1 by {
      assert QueueOk(cap, q.queues[ch], q.resolved);
      WithoutMembers(Line(q, ch), t);
    }
    TotalWithout(q.queues, ch);
    TotalUpdated(q.queues, ch, ChannelQueue(rest, true));
    if rest == [] {
      CloseKeepsQueues(cap, q.queues, q.resolved, ch);
    } else {
      LeaveKeepsQueues(cap, q.queues, q.resolved, ch, t);
    }
    hide QueuesOk, TotalWaiting, Without;
  }

  // ---- The module state --------------------------------------------------------------------------------

  /** `indexOf` and `splice` */
  method Cut(entries: seq<Ticket>, t: Ticket) returns (rest: seq<Ticket>)
    ensures rest == Without(entries, t)
  {
    rest := entries;
    var idx := IndexOf(entries, t);
    if idx >= 0 {
      rest := Splice(entries, idx);
    }
    SpliceIsWithout(entries, t);
    hide IndexOf, Splice, Without;
  }

  datatype EnterResult = Shed | CapReached | Queued

  class ChannelInsertQueues {
    const cap: nat
    const recentWindowMs: nat
    var channelQueues: map<Channel, ChannelQueue>
    var waitersTotal: int
    var resolved: set<Ticket>
    var recentChannelTimeoutAtMs: map<Channel, int>

    ghost function View(): Queues
      reads this
    {
      Queues(channelQueues, waitersTotal, resolved)
    }

    constructor (cap: nat, recentWindowMs: nat)
      requires cap >= 1
      ensures View() == NO_QUEUES && recentChannelTimeoutAtMs == map[]
      ensures this.cap == cap && this.recentWindowMs == recentWindowMs
    {
      this.cap, this.recentWindowMs := cap, recentWindowMs;
      channelQueues, waitersTotal, resolved, recentChannelTimeoutAtMs := map[], 0, {}, map[];
    }

    /** Whether a post to ch at time now is turned away because the channel timed out a moment ago. */
    predicate Suppressed(ch: Channel, now: int)
      reads this
    {
      ch in recentChannelTimeoutAtMs && recentChannelTimeoutAtMs[ch] != 0
      && now - recentChannelTimeoutAtMs[ch] <= recentWindowMs
    }

    /** The entry joins its line exactly when the channel is not shed and the line is below the cap. */
    method Enter(ch: Channel, t: Ticket, now: int) returns (result: EnterResult)
      requires cap >= 1
      modifies this`channelQueues, this`waitersTotal, this`resolved
      ensures result == if Suppressed(ch, now) then Shed
                        else if |Line(old(View()), ch)| >= cap then CapReached else Queued
      ensures View() == if result == Queued then Joined(old(View()), ch, t) else old(View())
    {
      if Suppressed(ch, now) {
        return Shed;
      }
      var queue := if ch in channelQueues then channelQueues[ch] else ChannelQueue([], false);
      if |queue.entries| >= cap {
        return CapReached;
      }
      waitersTotal := waitersTotal + 1;
      var entries := queue.entries + [t];
      if !queue.active {
        resolved := resolved + {entries[0]};
      }
      channelQueues := channelQueues[ch := ChannelQueue(entries, true)];
      return Queued;
    }

    method Leave(ch: Channel, t: Ticket)
      modifies this`channelQueues, this`waitersTotal, this`resolved
      ensures View() == Left(old(View()), ch, t)
    {
      waitersTotal := Max(0, waitersTotal - 1);
      if ch !in channelQueues {
        return;
      }
      var entries := Cut(channelQueues[ch].entries, t);
      if |entries| == 0 {
        channelQueues := channelQueues - {ch};
        return;
      }
      channelQueues := channelQueues[ch := ChannelQueue(entries, true)];
      resolved := resolved + {entries[0]};
    }

    /** A lock timeout is remembered; dropping stale marks changes no later answer. */
    method MarkTimeout(ch: Channel, now: int)
      requires now > 0
      modifies this`recentChannelTimeoutAtMs
      ensures forall h, later :: later >= now ==>
                (Suppressed(h, later) <==> if h == ch then later - now <= recentWindowMs else old(Suppressed(h, later)))
    {
      recentChannelTimeoutAtMs := recentChannelTimeoutAtMs[ch := now];
      if |recentChannelTimeoutAtMs| > 50000 {
        ghost var all := recentChannelTimeoutAtMs;
        var todo := recentChannelTimeoutAtMs.Keys;
        while todo != {}
          invariant todo <= recentChannelTimeoutAtMs.Keys <= all.Keys
          invariant forall h <- recentChannelTimeoutAtMs :: recentChannelTimeoutAtMs[h] == all[h]
          invariant forall h <- all :: h in recentChannelTimeoutAtMs || all[h] < now - recentWindowMs * 4
          decreases todo
        {
          var h :| h in todo;
          todo := todo - {h};
          if recentChannelTimeoutAtMs[h] < now - recentWindowMs * 4 {
            recentChannelTimeoutAtMs := recentChannelTimeoutAtMs - {h};
          }
        }
      }
    }
  }

  // ---- Refinement of the cluster's lines ---------------------------------------------------------------

  /** What one step of the cluster does to the queues of worker w. */
  function LocalStep(c: Cluster, step: Step, w: Worker, q: Queues): Queues {
    match step
    case Enter(t, lane) => if lane.worker == w then Joined(q, lane.channel, t) else q
    case Client(t, act) =>
      if t in c.calls && c.calls[t].lane.worker == w && Leaves(act) then Left(q, c.calls[t].lane.channel, t) else q
    case Net(_, _) => q
    case Crash(v) => if v == w then NO_QUEUES else q
    case Tick(_) => q
  }

  /** The queues of worker w after a run: what its calls of Enter and Leave have made of them. */
  function LocalQueues(cfg: Config, steps: seq<Step>, w: Worker): Queues
    requires Run(cfg, steps).Some?
  {
    if steps == [] then NO_QUEUES
    else
      var n := |steps| - 1;
      LocalStep(Run(cfg, steps[..n]).value, steps[n], w, LocalQueues(cfg, steps[..n], w))
  }

  ghost predicate SameLines(c: Cluster, w: Worker, q: Queues) {
    forall ch: Channel :: Line(q, ch) == SeqAt(c.lines, Lane(w, ch))
  }

  ghost predicate Refines(cfg: Config, c: Cluster, w: Worker, q: Queues) {
    QueuesInv(cfg.cap, q) && SameLines(c, w, q) && q.resolved <= c.calls.Keys
  }

  lemma QueuedIsCalled(cfg: Config, c: Cluster, w: Worker, q: Queues, t: Ticket)
    requires LinesInv(cfg, c) && Refines(cfg, c, w, q) && t !in c.calls
    ensures Unknown(q.queues, q.resolved, t)
  {
    forall ch <- q.queues ensures t !in q.queues[ch].entries {
      var lane := Lane(w, ch);
      assert Line(q, ch) == SeqAt(c.lines, lane);
      assert lane in c.lines ==> LineOk(cfg, c.calls, lane, c.lines[lane]);
    }
  }

  lemma EnterRefines(cfg: Config, c: Cluster, w: Worker, q: Queues, t: Ticket, lane: Lane)
    requires LinesInv(cfg, c) && Refines(cfg, c, w, q) && Enabled(cfg, c, Enter(t, lane))
    ensures Refines(cfg, EnterApply(c, t, lane), w, LocalStep(c, Enter(t, lane), w, q))
  {
    var d, r := EnterApply(c, t, lane), LocalStep(c, Enter(t, lane), w, q);
    if lane.worker == w {
      assert Line(q, lane.channel) == SeqAt(c.lines, lane);
      QueuedIsCalled(cfg, c, w, q, t);
      JoinKeepsInv(cfg.cap, q, lane.channel, t);
      JoinAdmitsInLine(cfg.cap, q, lane.channel, t);
    }
    hide QueuesInv, LinesInv, Joined, Line, Enabled, Unknown;
    forall ch: Channel ensures Line(r, ch) == SeqAt(d.lines, Lane(w, ch)) {
      assert Line(q, ch) == SeqAt(c.lines, Lane(w, ch));
      JoinedLine(q, lane.channel, t, ch);
    }
  }

  lemma JoinAdmitsInLine(cap: nat, q: Queues, ch: Channel, t: Ticket)
    requires QueuesInv(cap, q)
    ensures Joined(q, ch, t).resolved <= q.resolved + {t}
  {
    assert ch in q.queues ==> QueueOk(cap, q.queues[ch], q.resolved);
  }

  lemma LeaveRefines(cfg: Config, c: Cluster, w: Worker, q: Queues, t: Ticket, p: Phase)
    requires LinesInv(cfg, c) && Refines(cfg, c, w, q)
    requires t in c.calls && InLine(c.calls[t].phase) && c.calls[t].phase != Waiting && c.calls[t].lane.worker == w
    ensures t in Line(q, c.calls[t].lane.channel)
    ensures Refines(cfg, Leave(c, t, p), w, Left(q, c.calls[t].lane.channel, t))
  {
    var lane := c.calls[t].lane;
    var d, r := Leave(c, t, p), Left(q, lane.channel, t);
    LeaverIsHead(cfg, c, t);
    assert Line(q, lane.channel) == SeqAt(c.lines, lane);
    LeaveKeepsInv(cfg.cap, q, lane.channel, t);
    NextIsCalled(cfg, c, lane, t);
    LeaveAdmitsInLine(q, lane.channel, t);
    hide QueuesInv, LinesInv, Without, Left, Line;
    forall ch: Channel ensures Line(r, ch) == SeqAt(d.lines, Lane(w, ch)) {
      assert Line(q, ch) == SeqAt(c.lines, Lane(w, ch));
      LeftLine(q, lane.channel, t, ch);
    }
  }

  lemma LeaveAdmitsInLine(q: Queues, ch: Channel, t: Ticket)
    ensures forall u <- Left(q, ch, t).resolved :: u in q.resolved || u in Without(Line(q, ch), t)
  {
    hide Without;
  }

  lemma NextIsCalled(cfg: Config, c: Cluster, lane: Lane, t: Ticket)
    requires LinesInv(cfg, c) && t in SeqAt(c.lines, lane)
    ensures forall u <- Without(SeqAt(c.lines, lane), t) :: u in c.calls
  {
    assert LineOk(cfg, c.calls, lane, c.lines[lane]);
    WithoutMembers(SeqAt(c.lines, lane), t);
  }

  lemma OtherLeaveRefines(cfg: Config, c: Cluster, w: Worker, q: Queues, t: Ticket, p: Phase)
    requires Refines(cfg, c, w, q) && t in c.calls && c.calls[t].lane.worker != w
    ensures Refines(cfg, Leave(c, t, p), w, q)
  {
    hide QueuesInv, Without;
    forall ch: Channel ensures Line(q, ch) == SeqAt(Leave(c, t, p).lines, Lane(w, ch)) {
      assert Line(q, ch) == SeqAt(c.lines, Lane(w, ch));
    }
  }

  lemma SameLinesRefine(cfg: Config, c: Cluster, d: Cluster, w: Worker, q: Queues)
    requires Refines(cfg, c, w, q) && d.lines == c.lines && c.calls.Keys <= d.calls.Keys
    ensures Refines(cfg, d, w, q)
  {
    hide QueuesInv;
    forall ch: Channel ensures Line(q, ch) == SeqAt(d.lines, Lane(w, ch)) {
      assert Line(q, ch) == SeqAt(c.lines, Lane(w, ch));
    }
  }

  lemma ClientRefines(cfg: Config, c: Cluster, w: Worker, q: Queues, t: Ticket, act: ClientAct)
    requires LinesInv(cfg, c) && Refines(cfg, c, w, q) && ClientEnabled(c, t, act)
    ensures Refines(cfg, ClientApply(c, t, act), w, LocalStep(c, Client(t, act), w, q))
  {
    var m := Advance(c, t, act);
    var r := LocalStep(c, Client(t, act), w, q);
    AppliedIsSent(c, t, act);
    SendKeepsLines(m, t, act);
    SendKeepsCalls(m, t, act);
    AdvanceFacts(c, t, act);
    assert Refines(cfg, m, w, r) by {
      if Leaves(act) {
        LeavingActPhase(c, t, act);
        hide Refines, LinesInv, ClientEnabled, NextPhase, Leave, Left;
        if c.calls[t].lane.worker == w {
          LeaveRefines(cfg, c, w, q, t, NextPhase(c, t, act));
        } else {
          OtherLeaveRefines(cfg, c, w, q, t, NextPhase(c, t, act));
        }
      } else {
        hide Refines, LinesInv, ClientEnabled, NextPhase;
        SameLinesRefine(cfg, c, m, w, q);
      }
    }
    hide *;
    SameLinesRefine(cfg, m, ClientApply(c, t, act), w, r);
  }

  lemma CrashRefines(cfg: Config, c: Cluster, w: Worker, q: Queues, v: Worker)
    requires Refines(cfg, c, w, q)
    ensures Refines(cfg, CrashApply(c, v), w, LocalStep(c, Crash(v), w, q))
  {
    var d, r := CrashApply(c, v), LocalStep(c, Crash(v), w, q);
    assert QueuesInv(cfg.cap, NO_QUEUES);
    hide QueuesInv;
    forall ch: Channel ensures Line(r, ch) == SeqAt(d.lines, Lane(w, ch)) {
      assert Line(q, ch) == SeqAt(c.lines, Lane(w, ch));
    }
  }

  lemma StepRefines(cfg: Config, c: Cluster, step: Step, w: Worker, q: Queues)
    requires LinesInv(cfg, c) && Refines(cfg, c, w, q) && Enabled(cfg, c, step)
    ensures Refines(cfg, Apply(cfg, c, step), w, LocalStep(c, step, w, q))
  {
    hide Refines, LinesInv, ClientApply, ClientEnabled, NetApply, NetEnabled, Joined, Left;
    match step
    case Enter(t, lane) => EnterRefines(cfg, c, w, q, t, lane);
    case Client(t, act) => ClientRefines(cfg, c, w, q, t, act);
    case Net(t, net) =>
      NetIsLocal(cfg, c, t, net);
      SameLinesRefine(cfg, c, NetApply(cfg, c, t, net), w, q);
    case Crash(v) => CrashRefines(cfg, c, w, q, v);
    case Tick(n) => SameLinesRefine(cfg, c, TickApply(c, n), w, q);
  }

  /** In every run of the cluster the queues of every worker are valid and hold exactly the lines of the cluster. */
  lemma {:induction false} QueuesRefineLines(cfg: Config, steps: seq<Step>, w: Worker)
    requires Run(cfg, steps).Some?
    ensures Refines(cfg, Run(cfg, steps).value, w, LocalQueues(cfg, steps, w))
  {
    if steps == [] {
    } else {
      var n := |steps| - 1;
      QueuesRefineLines(cfg, steps[..n], w);
      EveryRunKeepsInv(cfg, steps[..n]);
      InvLines(cfg, Run(cfg, steps[..n]).value);
      hide Inv, LinesInv, Refines, Apply, Enabled, LocalStep;
      StepRefines(cfg, Run(cfg, steps[..n]).value, steps[n], w, LocalQueues(cfg, steps[..n], w));
    }
  }

  /**
   * Whoever leaves finds its entry, at the head of its line, so the waiter count drops by exactly one and its clamp
   * at zero never fires; and exactly the heads of the lines have been admitted.
   */
  lemma LeaversAreQueued(cfg: Config, steps: seq<Step>, t: Ticket, act: ClientAct)
    requires Run(cfg, steps).Some? && ClientEnabled(Run(cfg, steps).value, t, act) && Leaves(act)
    ensures var c := Run(cfg, steps).value;
            t in c.calls &&
            var lane := c.calls[t].lane;
            var q := LocalQueues(cfg, steps, lane.worker);
            && Line(q, lane.channel) != [] && Line(q, lane.channel)[0] == t
            && Left(q, lane.channel, t).waitersTotal == q.waitersTotal - 1 >= 0
  {
    var c := Run(cfg, steps).value;
    var lane := c.calls[t].lane;
    EveryRunKeepsInv(cfg, steps);
    InvLines(cfg, c);
    LeavingActPhase(c, t, act);
    LeaverIsHead(cfg, c, t);
    QueuesRefineLines(cfg, steps, lane.worker);
    var q := LocalQueues(cfg, steps, lane.worker);
    assert Line(q, lane.channel) == SeqAt(c.lines, lane);
    hide Run, LinesInv, Inv, Left, LocalQueues, ClientEnabled;
    LeaveKeepsInv(cfg.cap, q, lane.channel, t);
  }

  /** A gate promise is resolved exactly for the head of its line, which is whom the cluster lets past its gate. */
  lemma AdmittedAreHeads(cfg: Config, steps: seq<Step>, t: Ticket)
    requires Run(cfg, steps).Some? && t in Run(cfg, steps).value.calls && InLine(Run(cfg, steps).value.calls[t].phase)
    ensures var c := Run(cfg, steps).value;
            t in LocalQueues(cfg, steps, c.calls[t].lane.worker).resolved <==> IsHead(c, t)
  {
    var c := Run(cfg, steps).value;
    var lane := c.calls[t].lane;
    var q := LocalQueues(cfg, steps, lane.worker);
    EveryRunKeepsInv(cfg, steps);
    InvLines(cfg, c);
    assert CallOk(c, t);
    QueuesRefineLines(cfg, steps, lane.worker);
    assert Line(q, lane.channel) == SeqAt(c.lines, lane);
    assert QueueOk(cfg.cap, q.queues[lane.channel], q.resolved);
    hide Run, LinesInv, Inv, LocalQueues;
    var i :| 0 <= i < |Line(q, lane.channel)| && Line(q, lane.channel)[i] == t;
  }
}
