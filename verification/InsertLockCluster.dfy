/**
 * Per-channel message-insert lock: any number of workers, each with a local FIFO line per channel in front of
 * one Redis lease per channel.  Every await in the TypeScript is a point where other calls, Redis and the
 * network may move, so a run is an arbitrary interleaving of the steps below.
 */
module InsertLockCluster {
  import opened Basics

  type Worker = nat
  type Channel = string

  /** One call of runChannelMessageInsertSerialized; it stands for its queue entry and for its unique token. */
  type Ticket = nat

  datatype Lane = Lane(worker: Worker, channel: Channel)

  /**
   * Waiting    parked on the gate promise
   * Spinning   in the SET loop with no SET outstanding
   * Setting    awaiting a SET reply
   * Holding    fn runs with the lease
   * Bare       fn runs after a Redis error, without lease and already out of the local line
   * Releasing  awaiting the reply to release attempt number `attempt`
   */
  datatype Phase = Waiting | Spinning | Setting | Holding | Bare | Releasing(attempt: nat) | Done | Crashed

  datatype Call = Call(lane: Lane, phase: Phase)

  datatype Lease = Lease(token: Ticket, expiresAt: int)

  datatype Config = Config(ttl: nat, cap: nat)

  /**
   * `sets` and `evals` are commands sent and not yet executed: a client that gave up on a reply leaves its
   * command in flight.  `grantedAt`, `released`, `arrived` and `left` record the past and influence no step.
   */
  datatype Cluster = Cluster(
    now: int,
    calls: map<Ticket, Call>,
    lines: map<Lane, seq<Ticket>>,
    store: map<Channel, Lease>,
    sets: set<Ticket>,
    setReplies: map<Ticket, bool>,
    evals: multiset<Ticket>,
    grantedAt: map<Ticket, int>,
    released: set<Ticket>,
    arrived: map<Lane, seq<Ticket>>,
    left: map<Lane, seq<Ticket>>)

  datatype ClientAct =
    | Admit        // the gate promise of the head resolves
    | SendSet
    | SetReply     // OK: the body starts; nil: back to the loop
    | SetFails     // Redis error or op timeout
    | SpinTimeout
    | BareEnds
    | BodyEnds     // fn returned or threw; the first release attempt is sent
    | ReleaseRetry // op timeout with attempts left
    | ReleaseEnds  // a reply, the last op timeout or another error; `finally` leaves the line

  datatype NetAct = ServeSet | LoseSet | ServeEval | LoseEval

  datatype Step =
    | Enter(t: Ticket, lane: Lane)    // accepted by the waiter cap
    | Client(t: Ticket, act: ClientAct)
    | Net(t: Ticket, net: NetAct)
    | Crash(w: Worker)
    | Tick(d: nat)

  const MAX_RELEASE_ATTEMPTS := 3

  function SeqAt(m: map<Lane, seq<Ticket>>, lane: Lane): seq<Ticket> {
    if lane in m then m[lane] else []
  }

  predicate InLine(p: Phase) {
    p == Waiting || p == Spinning || p == Setting || p == Holding || p.Releasing?
  }

  /** The unexpired lease Redis stores for a channel. */
  function LiveToken(c: Cluster, ch: Channel): Option<Ticket> {
    if ch in c.store && c.now < c.store[ch].expiresAt then Some(c.store[ch].token) else None
  }

  predicate At(c: Cluster, t: Ticket, p: Phase) { t in c.calls && c.calls[t].phase == p }

  predicate IsHead(c: Cluster, t: Ticket) {
    t in c.calls && SeqAt(c.lines, c.calls[t].lane) != [] && SeqAt(c.lines, c.calls[t].lane)[0] == t
  }

  predicate ClientEnabled(c: Cluster, t: Ticket, act: ClientAct) {
    t in c.calls &&
    var p := c.calls[t].phase;
    match act
    case Admit => p == Waiting && IsHead(c, t)
    case SendSet => p == Spinning
    case SetReply => p == Setting && t in c.setReplies
    case SetFails => p == Setting
    case SpinTimeout => p == Spinning
    case BareEnds => p == Bare
    case BodyEnds => p == Holding
    case ReleaseRetry => p.Releasing? && p.attempt < MAX_RELEASE_ATTEMPTS
    case ReleaseEnds => p.Releasing?
  }

  predicate NetEnabled(c: Cluster, t: Ticket, net: NetAct) {
    t in c.calls && if net.ServeSet? || net.LoseSet? then t in c.sets else t in c.evals
  }

  predicate Enabled(cfg: Config, c: Cluster, step: Step) {
    match step
    case Enter(t, lane) => t !in c.calls && |SeqAt(c.lines, lane)| < cfg.cap
    case Client(t, act) => ClientEnabled(c, t, act)
    case Net(t, net) => NetEnabled(c, t, net)
    case Crash(_) => true
    case Tick(_) => true
  }

  function Move(c: Cluster, t: Ticket, p: Phase): Cluster
    requires t in c.calls
  {
    c.(calls := c.calls[t := c.calls[t].(phase := p)])
  }

  /** leaveChannelInsertWaitQueue, together with the phase the call moves to. */
  function Leave(c: Cluster, t: Ticket, p: Phase): Cluster
    requires t in c.calls
  {
    var lane := c.calls[t].lane;
    Move(c, t, p).(
      lines := c.lines[lane := Without(SeqAt(c.lines, lane), t)],
      left := c.left[lane := SeqAt(c.left, lane) + [t]])
  }

  function DropWorker(m: map<Lane, seq<Ticket>>, w: Worker): map<Lane, seq<Ticket>> {
    map lane | lane in m && lane.worker != w :: m[lane]
  }

  function CrashCalls(calls: map<Ticket, Call>, w: Worker): map<Ticket, Call> {
    map t | t in calls ::
      if calls[t].lane.worker == w then calls[t].(phase := Crashed) else calls[t]
  }

  /** The part of the cluster that lives in the workers' memories. */
  predicate SameLocal(c: Cluster, d: Cluster) {
    c.calls == d.calls && c.lines == d.lines && c.arrived == d.arrived && c.left == d.left
  }

  function ServeSetAt(cfg: Config, c: Cluster, t: Ticket): (d: Cluster)
    requires t in c.calls
    ensures SameLocal(c, d) && d.released == c.released
  {
    var ch := c.calls[t].lane.channel;
    if LiveToken(c, ch).Some? then
      c.(sets := c.sets - {t}, setReplies := c.setReplies[t := false])
    else
      c.(sets := c.sets - {t}, setReplies := c.setReplies[t := true],
         store := c.store[ch := Lease(t, c.now + cfg.ttl)], grantedAt := c.grantedAt[t := c.now])
  }

  /** Compare-and-delete: only the holder's own token removes the key. */
  function ServeEvalAt(c: Cluster, t: Ticket): (d: Cluster)
    requires t in c.calls
    ensures SameLocal(c, d) && d.released == c.released
  {
    var ch := c.calls[t].lane.channel;
    var c' := c.(evals := c.evals - multiset{t});
    if LiveToken(c, ch) == Some(t) then c'.(store := c.store - {ch}) else c'
  }

  function NextPhase(c: Cluster, t: Ticket, act: ClientAct): Phase
    requires ClientEnabled(c, t, act)
  {
    match act
    case Admit => Spinning
    case SendSet => Setting
    case SetReply => if c.setReplies[t] then Holding else Spinning
    case SetFails => Bare
    case SpinTimeout => Done
    case BareEnds => Done
    case BodyEnds => Releasing(1)
    case ReleaseRetry => Releasing(c.calls[t].phase.attempt + 1)
    case ReleaseEnds => Done
  }

  predicate Leaves(act: ClientAct) { act == SetFails || act == SpinTimeout || act == ReleaseEnds }

  /** What a client act does to the network. */
  function Send(c: Cluster, t: Ticket, act: ClientAct): Cluster {
    match act
    case SendSet => c.(sets := c.sets + {t})
    case SetReply => c.(setReplies := c.setReplies - {t})
    case BodyEnds => c.(evals := c.evals + multiset{t}, released := c.released + {t})
    case ReleaseRetry => c.(evals := c.evals + multiset{t})
    case _ => c
  }

  /** What it does to the call and its line. */
  function Advance(c: Cluster, t: Ticket, act: ClientAct): Cluster
    requires ClientEnabled(c, t, act)
  {
    var p := NextPhase(c, t, act);
    if Leaves(act) then Leave(c, t, p) else Move(c, t, p)
  }

  function ClientApply(c: Cluster, t: Ticket, act: ClientAct): Cluster
    requires ClientEnabled(c, t, act)
  {
    Send(Advance(c, t, act), t, act)
  }

  function NetApply(cfg: Config, c: Cluster, t: Ticket, net: NetAct): Cluster
    requires NetEnabled(c, t, net)
  {
    match net
    case ServeSet => ServeSetAt(cfg, c, t)
    case LoseSet => c.(sets := c.sets - {t})
    case ServeEval => ServeEvalAt(c, t)
    case LoseEval => c.(evals := c.evals - multiset{t})
  }

  function EnterApply(c: Cluster, t: Ticket, lane: Lane): Cluster {
    c.(calls := c.calls[t := Call(lane, Waiting)],
       lines := c.lines[lane := SeqAt(c.lines, lane) + [t]],
       arrived := c.arrived[lane := SeqAt(c.arrived, lane) + [t]])
  }

  function CrashApply(c: Cluster, w: Worker): Cluster {
    c.(calls := CrashCalls(c.calls, w), lines := DropWorker(c.lines, w),
       arrived := DropWorker(c.arrived, w), left := DropWorker(c.left, w))
  }

  function TickApply(c: Cluster, d: nat): Cluster { c.(now := c.now + d) }

  function Apply(cfg: Config, c: Cluster, step: Step): Cluster
    requires Enabled(cfg, c, step)
  {
    match step
    case Enter(t, lane) => EnterApply(c, t, lane)
    case Client(t, act) => ClientApply(c, t, act)
    case Net(t, net) => NetApply(cfg, c, t, net)
    case Crash(w) => CrashApply(c, w)
    case Tick(d) => TickApply(c, d)
  }

  const INITIAL := Cluster(0, map[], map[], map[], {}, map[], multiset{}, map[], {}, map[], map[])

  /** The state after a run, if every step of it is enabled when taken. */
  function Run(cfg: Config, steps: seq<Step>): Option<Cluster> {
    if steps == [] then Some(INITIAL)
    else
      var n := |steps| - 1;
      match Run(cfg, steps[..n])
      case None => None
      case Some(c) => if Enabled(cfg, c, steps[n]) then Some(Apply(cfg, c, steps[n])) else None
  }

  ghost predicate Reachable(cfg: Config, c: Cluster) {
    exists steps :: Run(cfg, steps) == Some(c)
  }

  // ---- Invariant of the local lines -------------------------------------------------------------------

  ghost predicate LineOk(cfg: Config, calls: map<Ticket, Call>, lane: Lane, line: seq<Ticket>) {
    && Distinct(line) && |line| <= cfg.cap
    && (forall t <- line :: t in calls && calls[t].lane == lane && InLine(calls[t].phase))
  }

  /** A call is in its line exactly while its phase says so, and only the head has got past its gate. */
  predicate CallOk(c: Cluster, t: Ticket)
    requires t in c.calls
  {
    var call := c.calls[t];
    && (InLine(call.phase) ==> t in SeqAt(c.lines, call.lane))
    && (InLine(call.phase) && call.phase != Waiting ==> IsHead(c, t))
  }

  ghost predicate LinesInv(cfg: Config, c: Cluster) {
    && (forall lane <- c.lines :: LineOk(cfg, c.calls, lane, c.lines[lane]))
    && (forall t <- c.calls :: CallOk(c, t))
  }

  /** Arrival order is departure order, and the line is exactly who has arrived and not left. */
  ghost predicate LaneHistoryOk(c: Cluster, lane: Lane) {
    && SeqAt(c.arrived, lane) == SeqAt(c.left, lane) + SeqAt(c.lines, lane)
    && Distinct(SeqAt(c.arrived, lane))
    && (forall t <- SeqAt(c.arrived, lane) :: t in c.calls && c.calls[t].lane == lane)
  }

  ghost predicate HistoryInv(c: Cluster) {
    && (forall lane :: LaneHistoryOk(c, lane))
    && (forall t <- c.calls :: c.calls[t].phase != Crashed ==> t in SeqAt(c.arrived, c.calls[t].lane))
  }

  // ---- Invariant of the tokens, ticket by ticket ------------------------------------------------------

  /** Everything the cluster knows about one token, except where the lease stands. */
  datatype TokenView = TokenView(
    phase: Phase, setting: bool, reply: Option<bool>, evals: nat, granted: bool, released: bool)

  function ViewOf(c: Cluster, t: Ticket): TokenView
    requires t in c.calls
  {
    TokenView(c.calls[t].phase, t in c.sets, if t in c.setReplies then Some(c.setReplies[t]) else None,
              c.evals[t], t in c.grantedAt, t in c.released)
  }

  predicate TokenOk(v: TokenView) {
    && (v.setting ==> !v.granted && v.reply == None && v.phase in {Setting, Bare, Crashed, Done})
    && (v.reply.Some? ==> v.reply.value == v.granted && v.phase in {Setting, Bare, Crashed, Done})
    && (v.phase in {Waiting, Spinning} ==> !v.granted)
    && (v.phase in {Waiting, Spinning, Setting, Holding, Bare} ==> !v.released)
    && (v.phase == Holding ==> v.granted)
    && (v.evals > 0 ==> v.released)
    && (v.released ==> v.granted && !v.setting)
    && (v.phase.Releasing? ==> v.released && v.evals <= v.phase.attempt && 1 <= v.phase.attempt <= MAX_RELEASE_ATTEMPTS)
    && v.evals <= MAX_RELEASE_ATTEMPTS
  }

  ghost predicate TokensInv(c: Cluster) {
    && c.sets <= c.calls.Keys && c.setReplies.Keys <= c.calls.Keys && c.grantedAt.Keys <= c.calls.Keys
    && c.released <= c.calls.Keys && (forall t :: t in c.evals ==> t in c.calls)
    && (forall t <- c.calls :: TokenOk(ViewOf(c, t)))
  }

  // ---- Invariant of the Redis lease -------------------------------------------------------------------

  /** Granted and its owner has not yet asked for release: the time in which the lease protects something. */
  predicate Unreleased(c: Cluster, t: Ticket) { t in c.calls && t in c.grantedAt && t !in c.released }

  predicate StoredOk(cfg: Config, c: Cluster, ch: Channel)
    requires ch in c.store
  {
    var l := c.store[ch];
    && l.token in c.grantedAt && l.token in c.calls && c.calls[l.token].lane.channel == ch
    && l.expiresAt == c.grantedAt[l.token] + cfg.ttl
  }

  /** An unreleased lease inside its TTL is the one Redis stores. */
  predicate Protected(cfg: Config, c: Cluster, t: Ticket) {
    Unreleased(c, t) ==>
      && c.grantedAt[t] <= c.now
      && (c.now < c.grantedAt[t] + cfg.ttl ==> LiveToken(c, c.calls[t].lane.channel) == Some(t))
  }

  /** The validity windows of two unreleased leases of one channel do not meet. */
  predicate WindowsDisjoint(cfg: Config, c: Cluster, t: Ticket, u: Ticket) {
    (t != u && Unreleased(c, t) && Unreleased(c, u) && c.calls[t].lane.channel == c.calls[u].lane.channel) ==>
      c.grantedAt[t] + cfg.ttl <= c.grantedAt[u] || c.grantedAt[u] + cfg.ttl <= c.grantedAt[t]
  }

  ghost predicate LeaseInv(cfg: Config, c: Cluster) {
    && (forall ch <- c.store :: StoredOk(cfg, c, ch))
    && (forall t :: Protected(cfg, c, t))
    && (forall t, u :: WindowsDisjoint(cfg, c, t, u))
  }

  ghost predicate Inv(cfg: Config, c: Cluster) {
    LinesInv(cfg, c) && HistoryInv(c) && TokensInv(c) && LeaseInv(cfg, c)
  }

  // ---- Preservation: lines and history ----------------------------------------------------------------

  lemma SameLocalKeeps(cfg: Config, c: Cluster, d: Cluster)
    requires LinesInv(cfg, c) && HistoryInv(c) && SameLocal(c, d)
    ensures LinesInv(cfg, d) && HistoryInv(d)
  {
    forall t <- d.calls ensures CallOk(d, t) { assert CallOk(c, t); }
    forall lane ensures LaneHistoryOk(d, lane) { assert LaneHistoryOk(c, lane); }
  }

  lemma MoveKeeps(cfg: Config, c: Cluster, t: Ticket, p: Phase)
    requires LinesInv(cfg, c) && HistoryInv(c) && t in c.calls && c.calls[t].phase != Crashed
    requires InLine(p) == InLine(c.calls[t].phase) && (InLine(p) ==> p != Waiting && IsHead(c, t))
    ensures LinesInv(cfg, Move(c, t, p)) && HistoryInv(Move(c, t, p))
  {
    var d := Move(c, t, p);
    forall lane <- d.lines ensures LineOk(cfg, d.calls, lane, d.lines[lane]) {
      assert LineOk(cfg, c.calls, lane, c.lines[lane]);
    }
    forall u <- d.calls ensures CallOk(d, u) { assert CallOk(c, u); }
    forall lane ensures LaneHistoryOk(d, lane) { assert LaneHistoryOk(c, lane); }
  }

  lemma EnterKeepsLines(cfg: Config, c: Cluster, t: Ticket, lane: Lane)
    requires LinesInv(cfg, c) && t !in c.calls && |SeqAt(c.lines, lane)| < cfg.cap
    ensures LinesInv(cfg, EnterApply(c, t, lane))
  {
    var d := EnterApply(c, t, lane);
    assert lane in c.lines ==> LineOk(cfg, c.calls, lane, c.lines[lane]);
    assert t !in SeqAt(c.lines, lane);
    DistinctAppend(SeqAt(c.lines, lane), t);
    forall l <- d.lines ensures LineOk(cfg, d.calls, l, d.lines[l]) {
      assert l in c.lines ==> LineOk(cfg, c.calls, l, c.lines[l]);
    }
    forall u <- d.calls ensures CallOk(d, u) { assert u in c.calls ==> CallOk(c, u); }
  }

  lemma EnterKeepsLaneHistory(c: Cluster, t: Ticket, lane: Lane, l: Lane)
    requires LaneHistoryOk(c, l) && t !in c.calls
    ensures LaneHistoryOk(EnterApply(c, t, lane), l)
  {
    if l == lane {
      AppendToParts(SeqAt(c.left, lane), SeqAt(c.lines, lane), t);
      DistinctAppend(SeqAt(c.arrived, lane), t);
      hide Distinct;
    }
  }

  lemma AppendToParts(left: seq<Ticket>, line: seq<Ticket>, t: Ticket)
    ensures left + line + [t] == left + (line + [t])
  {}

  lemma EnterKeepsHistory(c: Cluster, t: Ticket, lane: Lane)
    requires HistoryInv(c) && t !in c.calls
    ensures HistoryInv(EnterApply(c, t, lane))
  {
    var d := EnterApply(c, t, lane);
    hide LaneHistoryOk;
    forall l ensures LaneHistoryOk(d, l) {
      assert LaneHistoryOk(c, l);
      EnterKeepsLaneHistory(c, t, lane, l);
    }
  }

  /** Only an admitted head ever leaves, so leaving cuts the first entry. */
  lemma LeaverIsHead(cfg: Config, c: Cluster, t: Ticket)
    requires LinesInv(cfg, c) && t in c.calls && InLine(c.calls[t].phase) && c.calls[t].phase != Waiting
    ensures IsHead(c, t)
    ensures Without(SeqAt(c.lines, c.calls[t].lane), t) == SeqAt(c.lines, c.calls[t].lane)[1..]
    ensures t !in SeqAt(c.lines, c.calls[t].lane)[1..]
  {
    assert CallOk(c, t);
    var line := SeqAt(c.lines, c.calls[t].lane);
    assert LineOk(cfg, c.calls, c.calls[t].lane, line);
  }

  lemma LeaveKeepsLines(cfg: Config, c: Cluster, t: Ticket, p: Phase)
    requires LinesInv(cfg, c) && t in c.calls && InLine(c.calls[t].phase) && c.calls[t].phase != Waiting && !InLine(p)
    ensures LinesInv(cfg, Leave(c, t, p))
  {
    LeaverIsHead(cfg, c, t);
    var d := Leave(c, t, p);
    var lane := c.calls[t].lane;
    assert LineOk(cfg, c.calls, lane, c.lines[lane]);
    forall l <- d.lines ensures LineOk(cfg, d.calls, l, d.lines[l]) {
      assert LineOk(cfg, c.calls, l, c.lines[l]);
    }
    forall u <- d.calls ensures CallOk(d, u) {
      assert CallOk(c, u);
      assert c.lines[lane] == [t] + c.lines[lane][1..];
    }
  }

  lemma LeaveKeepsHistory(cfg: Config, c: Cluster, t: Ticket, p: Phase)
    requires LinesInv(cfg, c) && HistoryInv(c) && p != Crashed
    requires t in c.calls && InLine(c.calls[t].phase) && c.calls[t].phase != Waiting && !InLine(p)
    ensures HistoryInv(Leave(c, t, p))
  {
    LeaverIsHead(cfg, c, t);
    var d := Leave(c, t, p);
    var lane := c.calls[t].lane;
    var line := SeqAt(c.lines, lane);
    forall l ensures LaneHistoryOk(d, l) {
      assert LaneHistoryOk(c, l);
      if l == lane {
        assert line == [t] + line[1..];
        assert SeqAt(c.left, lane) + ([t] + line[1..]) == (SeqAt(c.left, lane) + [t]) + line[1..];
      }
    }
  }

  lemma CrashKeepsLines(cfg: Config, c: Cluster, w: Worker)
    requires LinesInv(cfg, c)
    ensures LinesInv(cfg, CrashApply(c, w))
  {
    var d := CrashApply(c, w);
    forall l <- d.lines ensures LineOk(cfg, d.calls, l, d.lines[l]) {
      assert LineOk(cfg, c.calls, l, c.lines[l]);
    }
    forall u <- d.calls ensures CallOk(d, u) { assert CallOk(c, u); }
  }

  lemma CrashKeepsHistory(c: Cluster, w: Worker)
    requires HistoryInv(c)
    ensures HistoryInv(CrashApply(c, w))
  {
    var d := CrashApply(c, w);
    forall l ensures LaneHistoryOk(d, l) { assert LaneHistoryOk(c, l); }
  }

  lemma ClientKeepsLines(cfg: Config, c: Cluster, t: Ticket, act: ClientAct)
    requires LinesInv(cfg, c) && HistoryInv(c) && ClientEnabled(c, t, act)
    ensures LinesInv(cfg, ClientApply(c, t, act)) && HistoryInv(ClientApply(c, t, act))
  {
    var p := NextPhase(c, t, act);
    assert CallOk(c, t);
    if Leaves(act) {
      LeaveKeepsLines(cfg, c, t, p);
      LeaveKeepsHistory(cfg, c, t, p);
      SameLocalKeeps(cfg, Leave(c, t, p), ClientApply(c, t, act));
    } else {
      MoveKeeps(cfg, c, t, p);
      SameLocalKeeps(cfg, Move(c, t, p), ClientApply(c, t, act));
    }
  }

  lemma NetKeepsLines(cfg: Config, c: Cluster, t: Ticket, net: NetAct)
    requires LinesInv(cfg, c) && HistoryInv(c) && NetEnabled(c, t, net)
    ensures LinesInv(cfg, NetApply(cfg, c, t, net)) && HistoryInv(NetApply(cfg, c, t, net))
  {
    hide LinesInv, HistoryInv, NetApply, SameLocal;
    NetIsLocal(cfg, c, t, net);
    SameLocalKeeps(cfg, c, NetApply(cfg, c, t, net));
  }

  lemma TickKeepsLines(cfg: Config, c: Cluster, n: nat)
    requires LinesInv(cfg, c) && HistoryInv(c)
    ensures LinesInv(cfg, TickApply(c, n)) && HistoryInv(TickApply(c, n))
  {
    hide LinesInv, HistoryInv;
    SameLocalKeeps(cfg, c, TickApply(c, n));
  }

  lemma LinesKept(cfg: Config, c: Cluster, step: Step)
    requires LinesInv(cfg, c) && HistoryInv(c) && Enabled(cfg, c, step)
    ensures LinesInv(cfg, Apply(cfg, c, step)) && HistoryInv(Apply(cfg, c, step))
  {
    hide LinesInv, HistoryInv, EnterApply, ClientApply, ClientEnabled, NetApply, NetEnabled, CrashApply, TickApply;
    match step
    case Enter(t, lane) => EnterKeepsLines(cfg, c, t, lane); EnterKeepsHistory(c, t, lane);
    case Client(t, act) => ClientKeepsLines(cfg, c, t, act);
    case Crash(w) => CrashKeepsLines(cfg, c, w); CrashKeepsHistory(c, w);
    case Net(t, net) => NetKeepsLines(cfg, c, t, net);
    case Tick(n) => TickKeepsLines(cfg, c, n);
  }

  // ---- Preservation: tokens ---------------------------------------------------------------------------

  /** The tokens other than t, and the owners of all tokens, are as before. */
  ghost predicate OnlyMoved(c: Cluster, d: Cluster, t: Ticket) {
    && d.calls.Keys == c.calls.Keys + {t}
    && d.sets <= c.sets + {t} && d.setReplies.Keys <= c.setReplies.Keys + {t}
    && d.grantedAt.Keys <= c.grantedAt.Keys + {t} && d.released <= c.released + {t}
    && (forall u :: u in d.evals ==> u in c.evals || u == t)
    && (forall u <- c.calls :: u != t ==> u in d.calls && ViewOf(d, u) == ViewOf(c, u))
  }

  lemma TokensFrame(c: Cluster, d: Cluster, t: Ticket)
    requires TokensInv(c) && OnlyMoved(c, d, t) && t in d.calls && TokenOk(ViewOf(d, t))
    ensures TokensInv(d)
  {
    forall u <- d.calls ensures TokenOk(ViewOf(d, u)) {
      assert u != t ==> TokenOk(ViewOf(c, u));
    }
  }

  /** The network, the clock and the lease are as before. */
  predicate SameRemote(c: Cluster, d: Cluster) {
    && d.now == c.now && d.store == c.store && d.sets == c.sets && d.setReplies == c.setReplies
    && d.evals == c.evals && d.grantedAt == c.grantedAt && d.released == c.released
  }

  /** Leaving and moving change a token's phase and nothing else about tokens; Send changes only t's messages. */
  lemma AdvanceFacts(c: Cluster, t: Ticket, act: ClientAct)
    requires ClientEnabled(c, t, act)
    ensures SameRemote(c, Advance(c, t, act))
    ensures Advance(c, t, act).calls == c.calls[t := Call(c.calls[t].lane, NextPhase(c, t, act))]
  {
    hide NextPhase;
  }

  lemma ClientOnlyMoves(c: Cluster, t: Ticket, act: ClientAct)
    requires ClientEnabled(c, t, act)
    ensures OnlyMoved(c, ClientApply(c, t, act), t)
  {
    AdvanceFacts(c, t, act);
    SendOnlyMoves(c, Advance(c, t, act), t, act, NextPhase(c, t, act));
    hide *;
    AppliedIsSent(c, t, act);
  }

  lemma AppliedIsSent(c: Cluster, t: Ticket, act: ClientAct)
    requires ClientEnabled(c, t, act)
    ensures ClientApply(c, t, act) == Send(Advance(c, t, act), t, act)
  {}

  lemma SendOnlyMoves(c: Cluster, m: Cluster, t: Ticket, act: ClientAct, p: Phase)
    requires t in c.calls && m.calls == c.calls[t := Call(c.calls[t].lane, p)] && SameRemote(c, m)
    ensures OnlyMoved(c, Send(m, t, act), t)
  {
    var d := Send(m, t, act);
    forall u <- c.calls | u != t ensures ViewOf(d, u) == ViewOf(c, u) {}
  }

  /** Send, seen from the token. */
  function ViewAfter(v: TokenView, act: ClientAct): TokenView {
    match act
    case SendSet => v.(setting := true)
    case SetReply => v.(reply := None)
    case BodyEnds => v.(evals := v.evals + 1, released := true)
    case ReleaseRetry => v.(evals := v.evals + 1)
    case _ => v
  }

  lemma SendView(m: Cluster, t: Ticket, act: ClientAct)
    requires t in m.calls
    ensures t in Send(m, t, act).calls && ViewOf(Send(m, t, act), t) == ViewAfter(ViewOf(m, t), act)
  {}

  lemma NextViewOk(c: Cluster, t: Ticket, act: ClientAct)
    requires ClientEnabled(c, t, act) && TokenOk(ViewOf(c, t))
    ensures TokenOk(ViewAfter(ViewOf(c, t).(phase := NextPhase(c, t, act)), act))
  {}

  lemma ClientViewOk(c: Cluster, t: Ticket, act: ClientAct)
    requires ClientEnabled(c, t, act) && TokenOk(ViewOf(c, t))
    ensures t in ClientApply(c, t, act).calls && TokenOk(ViewOf(ClientApply(c, t, act), t))
  {
    NextViewOk(c, t, act);
    AdvanceFacts(c, t, act);
    SendView(Advance(c, t, act), t, act);
    AppliedIsSent(c, t, act);
    hide Advance, ClientApply, Send, NextPhase, ViewAfter, TokenOk, ClientEnabled;
  }

  lemma ClientKeepsTokens(c: Cluster, t: Ticket, act: ClientAct)
    requires TokensInv(c) && ClientEnabled(c, t, act)
    ensures TokensInv(ClientApply(c, t, act))
  {
    hide ClientApply, OnlyMoved, TokenOk;
    ClientViewOk(c, t, act);
    ClientOnlyMoves(c, t, act);
    TokensFrame(c, ClientApply(c, t, act), t);
  }

  /** Redis and the network touch no call and no line. */
  lemma NetIsLocal(cfg: Config, c: Cluster, t: Ticket, net: NetAct)
    requires NetEnabled(c, t, net)
    ensures SameLocal(c, NetApply(cfg, c, t, net)) && NetApply(cfg, c, t, net).released == c.released
  {
    hide ServeSetAt, ServeEvalAt;
  }

  lemma ServeSetView(cfg: Config, c: Cluster, t: Ticket)
    requires t in c.calls && t in c.sets && TokenOk(ViewOf(c, t))
    ensures t in ServeSetAt(cfg, c, t).calls && TokenOk(ViewOf(ServeSetAt(cfg, c, t), t))
    ensures OnlyMoved(c, ServeSetAt(cfg, c, t), t)
  {
    var d := ServeSetAt(cfg, c, t);
    hide LiveToken;
    forall u <- c.calls | u != t ensures ViewOf(d, u) == ViewOf(c, u) {}
  }

  lemma ServeEvalView(c: Cluster, t: Ticket)
    requires t in c.calls && t in c.evals && TokenOk(ViewOf(c, t))
    ensures t in ServeEvalAt(c, t).calls && TokenOk(ViewOf(ServeEvalAt(c, t), t))
    ensures OnlyMoved(c, ServeEvalAt(c, t), t)
  {
    EvalViews(c, t);
    hide ServeEvalAt, ViewOf;
  }

  /** One command of t less. */
  lemma EvalViews(c: Cluster, t: Ticket)
    requires t in c.calls && t in c.evals
    ensures var d := ServeEvalAt(c, t);
            && ViewOf(d, t) == ViewOf(c, t).(evals := c.evals[t] - 1)
            && (forall u <- c.calls :: u != t ==> ViewOf(d, u) == ViewOf(c, u))
  {
    hide LiveToken;
  }

  lemma NetView(cfg: Config, c: Cluster, t: Ticket, net: NetAct)
    requires NetEnabled(c, t, net) && TokenOk(ViewOf(c, t))
    ensures t in NetApply(cfg, c, t, net).calls && TokenOk(ViewOf(NetApply(cfg, c, t, net), t))
    ensures OnlyMoved(c, NetApply(cfg, c, t, net), t)
  {
    hide ServeSetAt, ServeEvalAt;
    match net
    case ServeSet => ServeSetView(cfg, c, t);
    case ServeEval => ServeEvalView(c, t);
    case LoseSet =>
    case LoseEval =>
  }

  lemma NetKeepsTokens(cfg: Config, c: Cluster, t: Ticket, net: NetAct)
    requires TokensInv(c) && NetEnabled(c, t, net)
    ensures TokensInv(NetApply(cfg, c, t, net))
  {
    hide NetApply, OnlyMoved, TokenOk;
    NetView(cfg, c, t, net);
    TokensFrame(c, NetApply(cfg, c, t, net), t);
  }

  lemma EnterKeepsTokens(c: Cluster, t: Ticket, lane: Lane)
    requires TokensInv(c) && t !in c.calls
    ensures TokensInv(EnterApply(c, t, lane))
  {
    TokensFrame(c, EnterApply(c, t, lane), t);
  }

  lemma CrashKeepsTokens(c: Cluster, w: Worker)
    requires TokensInv(c)
    ensures TokensInv(CrashApply(c, w))
  {
    var d := CrashApply(c, w);
    forall u <- d.calls ensures TokenOk(ViewOf(d, u)) { assert TokenOk(ViewOf(c, u)); }
  }

  lemma TickKeepsTokens(c: Cluster, n: nat)
    requires TokensInv(c)
    ensures TokensInv(TickApply(c, n))
  {
    var d := TickApply(c, n);
    forall u <- d.calls ensures TokenOk(ViewOf(d, u)) { assert TokenOk(ViewOf(c, u)); }
  }

  lemma TokensKept(cfg: Config, c: Cluster, step: Step)
    requires TokensInv(c) && Enabled(cfg, c, step)
    ensures TokensInv(Apply(cfg, c, step))
  {
    hide TokensInv, EnterApply, ClientApply, ClientEnabled, NetApply, NetEnabled, CrashApply, TickApply;
    match step
    case Enter(t, lane) => EnterKeepsTokens(c, t, lane);
    case Client(t, act) => ClientKeepsTokens(c, t, act);
    case Net(t, net) => NetKeepsTokens(cfg, c, t, net);
    case Crash(w) => CrashKeepsTokens(c, w);
    case Tick(n) => TickKeepsTokens(c, n);
  }

  // ---- Preservation: lease ----------------------------------------------------------------------------

  predicate SameLanes(c: Cluster, d: Cluster) {
    forall t <- c.calls :: t in d.calls && d.calls[t].lane == c.calls[t].lane
  }

  /** Steps that leave Redis and the clock alone and at most mark tokens released. */
  lemma LeaseFrame(cfg: Config, c: Cluster, d: Cluster)
    requires LeaseInv(cfg, c) && c.grantedAt.Keys <= c.calls.Keys && SameLanes(c, d)
    requires d.now == c.now && d.store == c.store && d.grantedAt == c.grantedAt && c.released <= d.released
    ensures LeaseInv(cfg, d)
  {
    forall ch <- d.store ensures StoredOk(cfg, d, ch) { assert StoredOk(cfg, c, ch); }
    forall t ensures Protected(cfg, d, t) { assert Protected(cfg, c, t); }
    forall t, u ensures WindowsDisjoint(cfg, d, t, u) { assert WindowsDisjoint(cfg, c, t, u); }
  }

  lemma GrantKeepsLease(cfg: Config, c: Cluster, d: Cluster, t: Ticket, ch: Channel)
    requires LeaseInv(cfg, c) && t in c.calls && t !in c.grantedAt && c.calls[t].lane.channel == ch
    requires LiveToken(c, ch) == None && d.calls == c.calls && d.now == c.now && d.released == c.released
    requires d.store == c.store[ch := Lease(t, c.now + cfg.ttl)] && d.grantedAt == c.grantedAt[t := c.now]
    ensures LeaseInv(cfg, d)
  {
    forall h <- d.store ensures StoredOk(cfg, d, h) { assert h in c.store ==> StoredOk(cfg, c, h); }
    forall u ensures Protected(cfg, d, u) { assert Protected(cfg, c, u); }
    forall u, v ensures WindowsDisjoint(cfg, d, u, v) {
      assert WindowsDisjoint(cfg, c, u, v);
      assert Protected(cfg, c, u) && Protected(cfg, c, v);
    }
  }

  lemma DeleteKeepsLease(cfg: Config, c: Cluster, d: Cluster, t: Ticket, ch: Channel)
    requires LeaseInv(cfg, c) && t in c.released && LiveToken(c, ch) == Some(t)
    requires d.calls == c.calls && d.now == c.now && d.released == c.released
    requires d.store == c.store - {ch} && d.grantedAt == c.grantedAt
    ensures LeaseInv(cfg, d)
  {
    forall h <- d.store ensures StoredOk(cfg, d, h) { assert StoredOk(cfg, c, h); }
    forall u ensures Protected(cfg, d, u) { assert Protected(cfg, c, u); }
    forall u, v ensures WindowsDisjoint(cfg, d, u, v) { assert WindowsDisjoint(cfg, c, u, v); }
  }

  lemma TickKeepsLease(cfg: Config, c: Cluster, n: nat)
    requires LeaseInv(cfg, c)
    ensures LeaseInv(cfg, TickApply(c, n))
  {
    var d := TickApply(c, n);
    forall h <- d.store ensures StoredOk(cfg, d, h) { assert StoredOk(cfg, c, h); }
    forall u ensures Protected(cfg, d, u) { assert Protected(cfg, c, u); }
    forall u, v ensures WindowsDisjoint(cfg, d, u, v) { assert WindowsDisjoint(cfg, c, u, v); }
  }

  /** The clock, the store and the grants are as before. */
  predicate Quiet(c: Cluster, d: Cluster) {
    && d.now == c.now && d.store == c.store && d.grantedAt == c.grantedAt && c.released <= d.released && SameLanes(c, d)
  }

  lemma ClientIsQuiet(c: Cluster, t: Ticket, act: ClientAct)
    requires ClientEnabled(c, t, act)
    ensures Quiet(c, ClientApply(c, t, act))
  {
    var m := Advance(c, t, act);
    AdvanceFacts(c, t, act);
    hide Advance, NextPhase, Send, ClientApply, ClientEnabled;
    assert Quiet(c, m);
    SendIsQuiet(c, m, t, act);
    AppliedIsSent(c, t, act);
  }

  lemma SendIsQuiet(c: Cluster, m: Cluster, t: Ticket, act: ClientAct)
    requires Quiet(c, m)
    ensures Quiet(c, Send(m, t, act))
  {}

  predicate ServesRedis(net: NetAct) { net == ServeSet || net == ServeEval }

  lemma NetKeepsLease(cfg: Config, c: Cluster, t: Ticket, net: NetAct)
    requires TokensInv(c) && LeaseInv(cfg, c) && NetEnabled(c, t, net)
    ensures LeaseInv(cfg, NetApply(cfg, c, t, net))
  {
    hide LeaseInv;
    if ServesRedis(net) {
      ServeKeepsLease(cfg, c, t, net);
    } else {
      LeaseFrame(cfg, c, NetApply(cfg, c, t, net));
    }
  }

  lemma LeaseKept(cfg: Config, c: Cluster, step: Step)
    requires TokensInv(c) && LeaseInv(cfg, c) && Enabled(cfg, c, step)
    ensures LeaseInv(cfg, Apply(cfg, c, step))
  {
    hide LeaseInv, ClientApply, ClientEnabled, NetApply, NetEnabled;
    match step
    case Enter(t, lane) => LeaseFrame(cfg, c, EnterApply(c, t, lane));
    case Client(t, act) =>
      ClientIsQuiet(c, t, act);
      LeaseFrame(cfg, c, ClientApply(c, t, act));
    case Net(t, net) => NetKeepsLease(cfg, c, t, net);
    case Crash(w) => LeaseFrame(cfg, c, CrashApply(c, w));
    case Tick(n) => TickKeepsLease(cfg, c, n);
  }

  lemma ServeKeepsLease(cfg: Config, c: Cluster, t: Ticket, net: NetAct)
    requires TokensInv(c) && LeaseInv(cfg, c) && NetEnabled(c, t, net) && ServesRedis(net)
    ensures LeaseInv(cfg, NetApply(cfg, c, t, net))
  {
    var ch := c.calls[t].lane.channel;
    var d := NetApply(cfg, c, t, net);
    assert TokenOk(ViewOf(c, t));
    if net == ServeSet && LiveToken(c, ch) == None {
      GrantKeepsLease(cfg, c, d, t, ch);
    } else if net == ServeEval && LiveToken(c, ch) == Some(t) {
      DeleteKeepsLease(cfg, c, d, t, ch);
    } else {
      LeaseFrame(cfg, c, d);
    }
  }

  // ---- Main results -----------------------------------------------------------------------------------

  lemma StepKeepsInv(cfg: Config, c: Cluster, step: Step)
    requires Inv(cfg, c) && Enabled(cfg, c, step)
    ensures Inv(cfg, Apply(cfg, c, step))
  {
    LinesKept(cfg, c, step);
    TokensKept(cfg, c, step);
    LeaseKept(cfg, c, step);
  }

  lemma {:induction false} EveryRunKeepsInv(cfg: Config, steps: seq<Step>)
    ensures Run(cfg, steps).Some? ==> Inv(cfg, Run(cfg, steps).value)
  {
    if steps == [] {
    } else {
      var n := |steps| - 1;
      EveryRunKeepsInv(cfg, steps[..n]);
      if Run(cfg, steps).Some? {
        StepKeepsInv(cfg, Run(cfg, steps[..n]).value, steps[n]);
      }
    }
  }

  /**
   * Two lease-held insert bodies of one channel never run on the same worker, whatever the TTL; on different
   * workers they overlap only when the lease granted first has run past its TTL before the second was granted.
   */
  lemma LeaseHeldBodiesExclude(cfg: Config, c: Cluster, t: Ticket, u: Ticket)
    requires Reachable(cfg, c) && t != u && At(c, t, Holding) && At(c, u, Holding)
    requires c.calls[t].lane.channel == c.calls[u].lane.channel
    ensures c.calls[t].lane.worker != c.calls[u].lane.worker
    ensures t in c.grantedAt && u in c.grantedAt
    ensures c.grantedAt[t] + cfg.ttl <= c.grantedAt[u] <= c.now || c.grantedAt[u] + cfg.ttl <= c.grantedAt[t] <= c.now
  {
    var steps :| Run(cfg, steps) == Some(c);
    EveryRunKeepsInv(cfg, steps);
    assert CallOk(c, t) && CallOk(c, u);
    assert TokenOk(ViewOf(c, t)) && TokenOk(ViewOf(c, u));
    assert Protected(cfg, c, t) && Protected(cfg, c, u);
    assert WindowsDisjoint(cfg, c, t, u);
  }

  /** While a lease-held body runs inside its TTL, Redis stores exactly its token and nobody else's. */
  lemma HolderIsStored(cfg: Config, c: Cluster, t: Ticket)
    requires Reachable(cfg, c) && At(c, t, Holding)
    ensures t in c.grantedAt
    ensures c.now < c.grantedAt[t] + cfg.ttl ==> LiveToken(c, c.calls[t].lane.channel) == Some(t)
  {
    var steps :| Run(cfg, steps) == Some(c);
    EveryRunKeepsInv(cfg, steps);
    assert TokenOk(ViewOf(c, t));
    assert Protected(cfg, c, t);
  }

  /** Of the commands on their way only the compare-and-delete with the stored token removes it, and it always does. */
  lemma NetRemoval(cfg: Config, c: Cluster, u: Ticket, net: NetAct, ch: Channel, t: Ticket)
    requires NetEnabled(c, u, net) && LiveToken(c, ch) == Some(t) && t in c.calls && c.calls[t].lane.channel == ch
    ensures LiveToken(NetApply(cfg, c, u, net), ch) == if net == ServeEval && u == t then None else Some(t)
  {}

  lemma QuietKeepsToken(c: Cluster, d: Cluster, ch: Channel)
    requires Quiet(c, d)
    ensures LiveToken(d, ch) == LiveToken(c, ch)
  {}

  /**
   * A stored unexpired token stops being stored exactly by its own release or by its own expiry, and then nothing is
   * stored; every other step leaves it in place.
   */
  lemma OnlyOwnReleaseOrExpiryRemoves(cfg: Config, c: Cluster, step: Step, ch: Channel, t: Ticket)
    requires Reachable(cfg, c) && Enabled(cfg, c, step) && LiveToken(c, ch) == Some(t)
    ensures t in c.grantedAt
    ensures LiveToken(Apply(cfg, c, step), ch) ==
            if step == Net(t, ServeEval) || (step.Tick? && c.grantedAt[t] + cfg.ttl <= c.now + step.d) then None
            else Some(t)
    ensures step == Net(t, ServeEval) ==> t in c.released && !At(c, t, Holding)
  {
    hide Inv, LiveToken, ClientApply, ClientEnabled, NetApply;
    var steps :| Run(cfg, steps) == Some(c);
    EveryRunKeepsInv(cfg, steps);
    StoredFacts(cfg, c, ch, t);
    hide Reachable, Run;
    match step
    case Enter(u, lane) => QuietKeepsToken(c, EnterApply(c, u, lane), ch);
    case Client(u, act) =>
      ClientIsQuiet(c, u, act);
      QuietKeepsToken(c, ClientApply(c, u, act), ch);
    case Net(u, net) =>
      NetRemoval(cfg, c, u, net, ch, t);
    case Crash(w) => QuietKeepsToken(c, CrashApply(c, w), ch);
    case Tick(n) => TickExpires(c, n, ch, t);
  }

  /** What is stored for a channel was granted; it is released once a release command is under way. */
  lemma StoredFacts(cfg: Config, c: Cluster, ch: Channel, t: Ticket)
    requires Inv(cfg, c) && LiveToken(c, ch) == Some(t)
    ensures t in c.grantedAt && ch in c.store && c.store[ch] == Lease(t, c.grantedAt[t] + cfg.ttl)
    ensures t in c.calls && c.calls[t].lane.channel == ch
    ensures t in c.evals ==> t in c.released && !At(c, t, Holding)
  {
    assert StoredOk(cfg, c, ch);
    assert TokenOk(ViewOf(c, t));
  }

  lemma TickExpires(c: Cluster, n: nat, ch: Channel, t: Ticket)
    requires LiveToken(c, ch) == Some(t)
    ensures LiveToken(TickApply(c, n), ch) == if c.store[ch].expiresAt <= c.now + n then None else Some(t)
  {}

  /**
   * First come, first served, exactly once: the calls that left a line are a duplicate-free prefix of those
   * that arrived, the rest is the line in order, and a call has left exactly when it is past its lock.
   */
  lemma LinesAreFifo(cfg: Config, c: Cluster, lane: Lane)
    requires Reachable(cfg, c)
    ensures SeqAt(c.arrived, lane) == SeqAt(c.left, lane) + SeqAt(c.lines, lane)
    ensures Distinct(SeqAt(c.arrived, lane)) && |SeqAt(c.lines, lane)| <= cfg.cap
    ensures forall t <- c.calls :: c.calls[t].lane == lane && c.calls[t].phase != Crashed ==>
              (t in SeqAt(c.left, lane) <==> c.calls[t].phase in {Bare, Done})
  {
    var steps :| Run(cfg, steps) == Some(c);
    EveryRunKeepsInv(cfg, steps);
    assert LaneHistoryOk(c, lane);
    var left, line := SeqAt(c.left, lane), SeqAt(c.lines, lane);
    assert lane in c.lines ==> LineOk(cfg, c.calls, lane, line);
    DistinctParts(left, line);
    forall t <- c.calls | c.calls[t].lane == lane && c.calls[t].phase != Crashed
      ensures t in left <==> c.calls[t].phase in {Bare, Done}
    {
      assert CallOk(c, t);
      assert t in left + line;
    }
  }

  /** Only the head of a line is past its gate, so the admitted call of a lane is unique. */
  lemma OneAdmittedPerLane(cfg: Config, c: Cluster, t: Ticket)
    requires Reachable(cfg, c) && t in c.calls && InLine(c.calls[t].phase) && c.calls[t].phase != Waiting
    ensures IsHead(c, t)
    ensures forall u <- c.calls :: u != t && c.calls[u].lane == c.calls[t].lane && InLine(c.calls[u].phase)
              ==> c.calls[u].phase == Waiting
  {
    var steps :| Run(cfg, steps) == Some(c);
    EveryRunKeepsInv(cfg, steps);
    assert CallOk(c, t);
    forall u <- c.calls | u != t && c.calls[u].lane == c.calls[t].lane && InLine(c.calls[u].phase)
      ensures c.calls[u].phase == Waiting
    {
      assert CallOk(c, u);
    }
  }

  /**
   * A call's index in its line is a measure: every departure from the line lowers it by one, no other step
   * changes it, and at index 0 the call is admitted.
   */
  lemma PositionFalls(cfg: Config, c: Cluster, step: Step, u: Ticket, i: nat)
    requires Reachable(cfg, c) && Enabled(cfg, c, step) && u in c.calls
    requires i < |SeqAt(c.lines, c.calls[u].lane)| && SeqAt(c.lines, c.calls[u].lane)[i] == u
    requires step.Crash? ==> step.w != c.calls[u].lane.worker
    ensures
      var lane := c.calls[u].lane;
      var line := SeqAt(Apply(cfg, c, step).lines, lane);
      if step.Client? && Leaves(step.act) && c.calls[step.t].lane == lane
      then (i == 0 && u == step.t) || (0 < i <= |line| && line[i - 1] == u)
      else i < |line| && line[i] == u
  {
    var steps :| Run(cfg, steps) == Some(c);
    EveryRunKeepsInv(cfg, steps);
    InvLines(cfg, c);
    hide Inv, LinesInv, Reachable, ClientApply, ClientEnabled, NetEnabled, NetApply;
    if step.Client? {
      PositionAfterClient(cfg, c, step.t, step.act, u, i);
    } else if step.Net? {
      NetIsLocal(cfg, c, step.t, step.net);
    }
  }

  lemma PositionAfterClient(cfg: Config, c: Cluster, t: Ticket, act: ClientAct, u: Ticket, i: nat)
    requires LinesInv(cfg, c) && ClientEnabled(c, t, act) && u in c.calls
    requires i < |SeqAt(c.lines, c.calls[u].lane)| && SeqAt(c.lines, c.calls[u].lane)[i] == u
    ensures
      var lane := c.calls[u].lane;
      var line := SeqAt(ClientApply(c, t, act).lines, lane);
      if Leaves(act) && c.calls[t].lane == lane
      then (i == 0 && u == t) || (0 < i <= |line| && line[i - 1] == u)
      else i < |line| && line[i] == u
  {
    SendKeepsLines(Advance(c, t, act), t, act);
    if Leaves(act) {
      LeavingActPhase(c, t, act);
      LeaverIsHead(cfg, c, t);
    }
    hide LinesInv, NextPhase, Send, ClientEnabled;
  }

  lemma InvLines(cfg: Config, c: Cluster)
    requires Inv(cfg, c)
    ensures LinesInv(cfg, c)
  {}

  lemma LeavingActPhase(c: Cluster, t: Ticket, act: ClientAct)
    requires ClientEnabled(c, t, act) && Leaves(act)
    ensures InLine(c.calls[t].phase) && c.calls[t].phase != Waiting
  {}

  lemma SendKeepsLines(c: Cluster, t: Ticket, act: ClientAct)
    ensures Send(c, t, act).lines == c.lines
  {}

  lemma StepStaysReachable(cfg: Config, c: Cluster, step: Step)
    requires Reachable(cfg, c) && Enabled(cfg, c, step)
    ensures Reachable(cfg, Apply(cfg, c, step))
  {
    var steps :| Run(cfg, steps) == Some(c);
    assert (steps + [step])[..|steps|] == steps;
    assert Run(cfg, steps + [step]) == Some(Apply(cfg, c, step));
  }

  // ---- Which bodies can run together ---------------------------------------------------------------------

  predicate CallAt(c: Cluster, t: Ticket, lane: Lane, p: Phase) { t in c.calls && c.calls[t] == Call(lane, p) }

  /** Some run reaches c and, going on, d. */
  ghost predicate Follows(cfg: Config, c: Cluster, d: Cluster) {
    exists steps, more :: Run(cfg, steps) == Some(c) && Run(cfg, steps + more) == Some(d)
  }

  lemma FollowsSelf(cfg: Config, c: Cluster)
    requires Reachable(cfg, c)
    ensures Follows(cfg, c, c)
  {
    var steps :| Run(cfg, steps) == Some(c);
    assert steps + [] == steps;
  }

  lemma FollowsReachable(cfg: Config, c: Cluster, d: Cluster)
    requires Follows(cfg, c, d)
    ensures Reachable(cfg, d) && Inv(cfg, d)
  {
    var steps, more :| Run(cfg, steps) == Some(c) && Run(cfg, steps + more) == Some(d);
    EveryRunKeepsInv(cfg, steps + more);
  }

  lemma Continue(cfg: Config, c: Cluster, d: Cluster, step: Step) returns (e: Cluster)
    requires Follows(cfg, c, d) && Enabled(cfg, d, step)
    ensures e == Apply(cfg, d, step) && Follows(cfg, c, e)
  {
    e := Apply(cfg, d, step);
    var steps, more :| Run(cfg, steps) == Some(c) && Run(cfg, steps + more) == Some(d);
    hide Apply, Enabled;
    var all := steps + more + [step];
    assert all == steps + (more + [step]) && all[..|all| - 1] == steps + more;
    assert Run(cfg, all) == Some(e);
  }

  lemma SendKeepsCalls(c: Cluster, t: Ticket, act: ClientAct)
    ensures Send(c, t, act).calls == c.calls
  {}

  /** What an act does outside its worker: it sends a SET or a release command, and takes a reply. */
  lemma ActSends(c: Cluster, t: Ticket, act: ClientAct)
    requires ClientEnabled(c, t, act)
    ensures var d := ClientApply(c, t, act);
            && d.now == c.now && d.store == c.store
            && d.sets == (if act == SendSet then c.sets + {t} else c.sets)
            && d.evals == (if act == BodyEnds || act == ReleaseRetry then c.evals + multiset{t} else c.evals)
            && d.setReplies == (if act == SetReply then c.setReplies - {t} else c.setReplies)
  {
    hide ClientEnabled, NextPhase, Without;
    AppliedIsSent(c, t, act);
    AdvanceIsLocal(c, t, act);
    hide Advance, ClientApply;
  }

  lemma AdvanceIsLocal(c: Cluster, t: Ticket, act: ClientAct)
    requires ClientEnabled(c, t, act)
    ensures var d := Advance(c, t, act);
            && d.now == c.now && d.store == c.store && d.sets == c.sets && d.evals == c.evals
            && d.setReplies == c.setReplies
  {
    hide ClientEnabled, NextPhase, Without;
  }

  /** What an act does to calls and lines. */
  lemma ActEffect(c: Cluster, t: Ticket, act: ClientAct)
    requires ClientEnabled(c, t, act)
    ensures var d := ClientApply(c, t, act);
            var lane := c.calls[t].lane;
            && d.calls == c.calls[t := Call(lane, NextPhase(c, t, act))]
            && d.lines == if Leaves(act) then c.lines[lane := Without(SeqAt(c.lines, lane), t)] else c.lines
  {
    AppliedIsSent(c, t, act);
    AdvanceFacts(c, t, act);
    SendKeepsLines(Advance(c, t, act), t, act);
    SendKeepsCalls(Advance(c, t, act), t, act);
    hide Send, NextPhase, ClientEnabled;
  }

  lemma Act(cfg: Config, c: Cluster, d: Cluster, t: Ticket, act: ClientAct) returns (e: Cluster)
    requires Follows(cfg, c, d) && ClientEnabled(d, t, act)
    ensures Follows(cfg, c, e) && e == ClientApply(d, t, act)
    ensures var lane := d.calls[t].lane;
            && e.calls == d.calls[t := Call(lane, NextPhase(d, t, act))]
            && e.lines == if Leaves(act) then d.lines[lane := Without(SeqAt(d.lines, lane), t)] else d.lines
    ensures e.now == d.now && e.store == d.store
    ensures e.sets == if act == SendSet then d.sets + {t} else d.sets
    ensures e.evals == if act == BodyEnds || act == ReleaseRetry then d.evals + multiset{t} else d.evals
  {
    ActEffect(d, t, act);
    ActSends(d, t, act);
    hide Follows, ClientApply, NextPhase, ClientEnabled;
    e := Continue(cfg, c, d, Client(t, act));
  }

  /** Whatever the head of a line is doing, it can leave the line without anybody else moving. */
  lemma HeadLeaves(cfg: Config, c: Cluster, d: Cluster, u: Ticket) returns (e: Cluster)
    requires Follows(cfg, c, d) && IsHead(d, u) && InLine(d.calls[u].phase)
    ensures Follows(cfg, c, e)
    ensures SeqAt(e.lines, d.calls[u].lane) == SeqAt(d.lines, d.calls[u].lane)[1..]
    ensures forall t <- d.calls :: t != u ==> t in e.calls && e.calls[t] == d.calls[t]
  {
    hide Follows, Inv;
    e := d;
    match d.calls[u].phase
    case Waiting =>
      e := Act(cfg, c, e, u, Admit);
      e := Act(cfg, c, e, u, SpinTimeout);
    case Spinning => e := Act(cfg, c, e, u, SpinTimeout);
    case Setting => e := Act(cfg, c, e, u, SetFails);
    case Holding =>
      e := Act(cfg, c, e, u, BodyEnds);
      e := Act(cfg, c, e, u, ReleaseEnds);
    case Releasing(_) => e := Act(cfg, c, e, u, ReleaseEnds);
  }

  /** The head of a line is a queued call of its lane, and nobody outside the line's phases is in it. */
  lemma HeadIsQueued(cfg: Config, d: Cluster, lane: Lane)
    requires Inv(cfg, d) && SeqAt(d.lines, lane) != []
    ensures var u := SeqAt(d.lines, lane)[0];
            u in d.calls && d.calls[u].lane == lane && InLine(d.calls[u].phase) && IsHead(d, u)
  {
    assert LineOk(cfg, d.calls, lane, d.lines[lane]);
  }

  predicate IsBody(p: Phase) { p == Holding || p == Bare }

  /** Call t runs its body and is not in the line of the given lane. */
  predicate Beside(c: Cluster, t: Ticket, home: Lane, p: Phase, lane: Lane) {
    CallAt(c, t, home, p) && IsBody(p) && (home != lane || p == Bare)
  }

  lemma {:induction false} LineEmpties(cfg: Config, c: Cluster, d: Cluster, t: Ticket, home: Lane, p: Phase, lane: Lane)
    returns (e: Cluster)
    requires Follows(cfg, c, d) && Beside(d, t, home, p, lane)
    ensures Follows(cfg, c, e) && CallAt(e, t, home, p) && SeqAt(e.lines, lane) == []
    decreases |SeqAt(d.lines, lane)|
  {
    if SeqAt(d.lines, lane) == [] {
      e := d;
    } else {
      FollowsReachable(cfg, c, d);
      HeadIsQueued(cfg, d, lane);
      hide Follows, Inv;
      e := HeadLeaves(cfg, c, d, SeqAt(d.lines, lane)[0]);
      e := LineEmpties(cfg, c, e, t, home, p, lane);
    }
  }

  /** A new call of an empty line gets as far as its SET. */
  lemma NewcomerSets(cfg: Config, c: Cluster, d: Cluster, t: Ticket, home: Lane, p: Phase, lane: Lane)
    returns (e: Cluster, u: Ticket)
    requires cfg.cap >= 1 && Follows(cfg, c, d) && CallAt(d, t, home, p) && SeqAt(d.lines, lane) == []
    ensures u != t && Follows(cfg, c, e) && CallAt(e, t, home, p) && CallAt(e, u, lane, Setting) && u in e.sets
  {
    u := UpperBound(d.calls.Keys);
    hide Follows, Run;
    e := Continue(cfg, c, d, Enter(u, lane));
    e := Act(cfg, c, e, u, Admit);
    e := Act(cfg, c, e, u, SendSet);
  }

  /** With no unexpired lease stored, a SET on its way is granted and the body runs with the lease at once. */
  lemma FreeLeaseIsGranted(cfg: Config, c: Cluster, d: Cluster, u: Ticket) returns (e: Cluster)
    requires Follows(cfg, c, d) && At(d, u, Setting) && u in d.sets && LiveToken(d, d.calls[u].lane.channel) == None
    ensures Follows(cfg, c, e) && e.now == d.now && e.calls == d.calls[u := Call(d.calls[u].lane, Holding)]
    ensures e.evals == d.evals
    ensures cfg.ttl > 0 ==> LiveToken(e, d.calls[u].lane.channel) == Some(u)
  {
    hide Follows, Run;
    e := Continue(cfg, c, d, Net(u, ServeSet));
    e := Act(cfg, c, e, u, SetReply);
  }

  /** Once the stored lease, if any, has expired, its SET is granted and its body runs with the lease. */
  lemma SetIsGranted(cfg: Config, c: Cluster, d: Cluster, t: Ticket, home: Lane, p: Phase, u: Ticket, lane: Lane)
    returns (e: Cluster)
    requires Follows(cfg, c, d) && t != u
    requires CallAt(d, t, home, p) && CallAt(d, u, lane, Setting) && u in d.sets
    ensures Follows(cfg, c, e) && CallAt(e, t, home, p) && CallAt(e, u, lane, Holding)
  {
    var wait := if lane.channel in d.store then Max(0, d.store[lane.channel].expiresAt - d.now) else 0;
    hide Follows, Run;
    e := Continue(cfg, c, d, Tick(wait));
    assert LiveToken(e, lane.channel) == None;
    e := FreeLeaseIsGranted(cfg, c, e, u);
  }

  /**
   * From every reachable state in which a body runs, some continuation has another body running beside it, with the
   * lease or without: on every other lane, be it the same channel on another worker, and if the first body has no
   * lease on its own lane too.
   */
  lemma BodyAdmitsAnother(cfg: Config, c: Cluster, t: Ticket, home: Lane, p: Phase, lane: Lane, q: Phase)
    returns (d: Cluster, u: Ticket)
    requires cfg.cap >= 1 && Reachable(cfg, c) && Beside(c, t, home, p, lane) && IsBody(q)
    ensures Follows(cfg, c, d) && u != t && CallAt(d, t, home, p) && CallAt(d, u, lane, q)
  {
    FollowsSelf(cfg, c);
    hide Follows, Reachable, Run;
    d := LineEmpties(cfg, c, c, t, home, p, lane);
    d, u := NewcomerSets(cfg, c, d, t, home, p, lane);
    if q == Holding {
      d := SetIsGranted(cfg, c, d, t, home, p, u, lane);
    } else {
      d := Act(cfg, c, d, u, SetFails);
    }
  }

  lemma OneCallFails(cfg: Config, lane: Lane) returns (c: Cluster)
    requires cfg.cap >= 1
    ensures Reachable(cfg, c) && CallAt(c, 0, lane, Bare)
  {
    assert Run(cfg, []) == Some(INITIAL);
    hide Reachable, Run;
    c := TakeStep(cfg, INITIAL, Enter(0, lane));
    c := TakeStep(cfg, c, Client(0, Admit));
    c := TakeStep(cfg, c, Client(0, SendSet));
    c := TakeStep(cfg, c, Client(0, SetFails));
  }

  lemma OneCallHolds(cfg: Config, lane: Lane) returns (c: Cluster)
    requires cfg.cap >= 1
    ensures Reachable(cfg, c) && CallAt(c, 0, lane, Holding)
  {
    assert Run(cfg, []) == Some(INITIAL);
    hide Reachable, Run;
    c := TakeStep(cfg, INITIAL, Enter(0, lane));
    c := TakeStep(cfg, c, Client(0, Admit));
    c := TakeStep(cfg, c, Client(0, SendSet));
    c := TakeStep(cfg, c, Net(0, ServeSet));
    c := TakeStep(cfg, c, Client(0, SetReply));
  }

  /**
   * The fallback after a Redis error is not "local serialization": the failed call is out of its line before
   * its body runs, so the next call of the same lane can hold the lease and run beside it.
   */
  lemma BareBodyCanOverlap(cfg: Config, lane: Lane, q: Phase) returns (c: Cluster, u: Ticket)
    requires cfg.cap >= 1 && IsBody(q)
    ensures Reachable(cfg, c) && u != 0 && CallAt(c, 0, lane, Bare) && CallAt(c, u, lane, q)
  {
    var b := OneCallFails(cfg, lane);
    hide Follows, Reachable, Run;
    c, u := BodyAdmitsAnother(cfg, b, 0, lane, Bare, lane, q);
    FollowsReachable(cfg, b, c);
  }

  /** Two calls run bodies on lanes l and m at the same time, with or without the lease as p and q say. */
  ghost predicate Coexist(cfg: Config, l: Lane, p: Phase, m: Lane, q: Phase) {
    exists c, t, u :: Reachable(cfg, c) && t != u && CallAt(c, t, l, p) && CallAt(c, u, m, q)
  }

  lemma BodiesOnTwoLanes(cfg: Config, l: Lane, p: Phase, m: Lane, q: Phase)
    requires cfg.cap >= 1 && l != m && IsBody(p) && IsBody(q)
    ensures Coexist(cfg, l, p, m, q)
  {
    var b;
    if p == Holding { b := OneCallHolds(cfg, l); } else { b := OneCallFails(cfg, l); }
    hide Follows, Reachable, Run;
    var c, u := BodyAdmitsAnother(cfg, b, 0, l, p, m, q);
    FollowsReachable(cfg, b, c);
    assert CallAt(c, 0, l, p) && CallAt(c, u, m, q);
  }

  /**
   * Two bodies can run at the same time exactly when they are on different lanes or one of them has no lease.  So
   * two lease-held bodies of one channel coexist in some run if and only if their workers differ.
   */
  lemma BodiesCoexistExactlyWhen(cfg: Config, l: Lane, p: Phase, m: Lane, q: Phase)
    requires cfg.cap >= 1 && IsBody(p) && IsBody(q)
    ensures Coexist(cfg, l, p, m, q) <==> l != m || p == Bare || q == Bare
  {
    if l != m {
      BodiesOnTwoLanes(cfg, l, p, m, q);
    } else if p == Bare {
      var c, u := BareBodyCanOverlap(cfg, l, q);
      assert CallAt(c, 0, l, p) && CallAt(c, u, m, q);
    } else if q == Bare {
      var c, u := BareBodyCanOverlap(cfg, l, p);
      assert CallAt(c, u, l, p) && CallAt(c, 0, m, q);
    } else {
      forall c, t, u | Reachable(cfg, c) && t != u && CallAt(c, t, l, p) && CallAt(c, u, m, q) ensures false {
        LeaseHeldBodiesExclude(cfg, c, t, u);
      }
    }
  }

  // ---- Releasing, and getting the lease --------------------------------------------------------------------

  /** At most three release attempts are made, with one command each, and the third is not retried. */
  lemma ReleaseAttempts(cfg: Config, c: Cluster, t: Ticket)
    requires Reachable(cfg, c) && t in c.calls
    ensures c.evals[t] <= 3
    ensures c.calls[t].phase.Releasing? ==> 1 <= c.calls[t].phase.attempt <= 3 && c.evals[t] <= c.calls[t].phase.attempt
    ensures ClientEnabled(c, t, ReleaseRetry) <==> c.calls[t].phase == Releasing(1) || c.calls[t].phase == Releasing(2)
  {
    var steps :| Run(cfg, steps) == Some(c);
    EveryRunKeepsInv(cfg, steps);
    assert TokenOk(ViewOf(c, t));
  }

  /** All three can be on their way at once. */
  lemma ThreeAttempts(cfg: Config, c: Cluster, t: Ticket) returns (d: Cluster)
    requires Reachable(cfg, c) && At(c, t, Holding)
    ensures Follows(cfg, c, d) && d.now == c.now && At(d, t, Releasing(3)) && d.evals[t] == c.evals[t] + 3
  {
    FollowsSelf(cfg, c);
    hide Follows, Reachable, Run;
    d := Act(cfg, c, c, t, BodyEnds);
    d := Act(cfg, c, d, t, ReleaseRetry);
    d := Act(cfg, c, d, t, ReleaseRetry);
  }

  /** A crash ends the calls of its worker and empties its lines; other workers and what Redis stores do not notice. */
  lemma CrashEmptiesWorker(cfg: Config, c: Cluster, w: Worker, lane: Lane)
    requires Reachable(cfg, c)
    ensures Enabled(cfg, c, Crash(w))
    ensures var d := Apply(cfg, c, Crash(w));
            && Reachable(cfg, d) && d.store == c.store && d.now == c.now && d.calls.Keys == c.calls.Keys
            && (forall t <- c.calls ::
                  d.calls[t] == if c.calls[t].lane.worker == w then Call(c.calls[t].lane, Crashed) else c.calls[t])
            && SeqAt(d.lines, lane) == if lane.worker == w then [] else SeqAt(c.lines, lane)
  {
    StepStaysReachable(cfg, c, Crash(w));
    hide Reachable, Run;
  }

  /** A release command on its way removes its own token, and nothing else changes. */
  lemma CommandFrees(cfg: Config, c: Cluster, d: Cluster, t: Ticket) returns (e: Cluster)
    requires Follows(cfg, c, d) && t in d.calls && t in d.evals && LiveToken(d, d.calls[t].lane.channel) == Some(t)
    ensures Follows(cfg, c, e) && e.now == d.now && e.calls == d.calls && e.sets == d.sets
    ensures e.evals == d.evals - multiset{t}
    ensures LiveToken(e, d.calls[t].lane.channel) == None
  {
    hide Follows, Run;
    e := Continue(cfg, c, d, Net(t, ServeEval));
  }

  /** A call whose release command may be lost can still free its lease at once, as long as it has an attempt left. */
  lemma ReleaseCanFree(cfg: Config, c: Cluster, t: Ticket, k: nat) returns (d: Cluster)
    requires Reachable(cfg, c) && At(c, t, Releasing(k)) && (k < 3 || t in c.evals)
    requires LiveToken(c, c.calls[t].lane.channel) == Some(t)
    ensures Follows(cfg, c, d) && d.now == c.now && LiveToken(d, c.calls[t].lane.channel) == None
  {
    FollowsSelf(cfg, c);
    hide Follows, Reachable, Run;
    d := c;
    if t !in c.evals {
      d := Act(cfg, c, d, t, ReleaseRetry);
    }
    d := CommandFrees(cfg, c, d, t);
  }

  /**
   * The lease passes on as soon as its holder is done: when a body ends while the SET of another worker's call is on
   * its way, some continuation has that call holding the lease without any time passing.
   */
  lemma LeaseIsHandedOver(cfg: Config, c: Cluster, t: Ticket, u: Ticket) returns (d: Cluster)
    requires Reachable(cfg, c) && At(c, t, Holding) && At(c, u, Setting) && u in c.sets
    requires c.calls[u].lane.channel == c.calls[t].lane.channel
    requires LiveToken(c, c.calls[t].lane.channel) == Some(t)
    ensures Follows(cfg, c, d) && d.now == c.now && At(d, u, Holding) && !At(d, t, Holding) && d.evals == c.evals
    ensures cfg.ttl > 0 ==> LiveToken(d, c.calls[t].lane.channel) == Some(u)
  {
    FollowsSelf(cfg, c);
    hide Follows, Reachable, Run;
    d := Act(cfg, c, c, t, BodyEnds);
    hide NextPhase;
    d := CommandFrees(cfg, c, d, t);
    d := FreeLeaseIsGranted(cfg, c, d, u);
  }

  /** While another call's lease stands, a SET is answered nil and its call is back in the loop, where it was in line. */
  lemma RefusedCallLoops(cfg: Config, c: Cluster, t: Ticket, u: Ticket) returns (d: Cluster)
    requires Reachable(cfg, c) && At(c, u, Setting) && u in c.sets && t != u
    requires LiveToken(c, c.calls[u].lane.channel) == Some(t)
    ensures Follows(cfg, c, d) && d.now == c.now && At(d, u, Spinning) && d.lines == c.lines && d.store == c.store
  {
    FollowsSelf(cfg, c);
    hide Follows, Reachable, Run;
    d := Continue(cfg, c, c, Net(u, ServeSet));
    d := Act(cfg, c, d, u, SetReply);
  }

  // ---- Nobody waits in vain ----------------------------------------------------------------------------

  /** The calls ahead of a waiting one can leave without it. */
  lemma {:induction false} AheadLeave(cfg: Config, c: Cluster, d: Cluster, t: Ticket, lane: Lane) returns (e: Cluster)
    requires Follows(cfg, c, d) && CallAt(d, t, lane, Waiting) && t in SeqAt(d.lines, lane)
    ensures Follows(cfg, c, e) && CallAt(e, t, lane, Waiting) && IsHead(e, t)
    decreases |SeqAt(d.lines, lane)|
  {
    if IsHead(d, t) {
      e := d;
    } else {
      FollowsReachable(cfg, c, d);
      HeadIsQueued(cfg, d, lane);
      hide Follows, Inv;
      var line := SeqAt(d.lines, lane);
      assert t in line[1..];
      e := HeadLeaves(cfg, c, d, line[0]);
      e := AheadLeave(cfg, c, e, t, lane);
    }
  }

  /** From its loop a call can get the lease: it sends a SET, and the lease in its way runs out. */
  lemma SpinnerGetsLease(cfg: Config, c: Cluster, d: Cluster, t: Ticket, lane: Lane) returns (e: Cluster)
    requires Follows(cfg, c, d) && CallAt(d, t, lane, Spinning)
    ensures Follows(cfg, c, e) && CallAt(e, t, lane, Holding)
  {
    hide Follows, Run;
    e := Act(cfg, c, d, t, SendSet);
    e := SetterGetsLease(cfg, c, e, t, lane);
  }

  lemma SetterGetsLease(cfg: Config, c: Cluster, d: Cluster, t: Ticket, lane: Lane) returns (e: Cluster)
    requires Follows(cfg, c, d) && CallAt(d, t, lane, Setting) && t in d.sets
    ensures Follows(cfg, c, e) && CallAt(e, t, lane, Holding)
  {
    var wait := if lane.channel in d.store then Max(0, d.store[lane.channel].expiresAt - d.now) else 0;
    hide Follows, Run;
    e := Continue(cfg, c, d, Tick(wait));
    assert LiveToken(e, lane.channel) == None;
    e := FreeLeaseIsGranted(cfg, c, e, t);
  }

  /** A SET reply that has come is acted on: the body runs, or the loop goes on and gets the lease later. */
  lemma AnsweredGetsLease(cfg: Config, c: Cluster, d: Cluster, t: Ticket, lane: Lane) returns (e: Cluster)
    requires Follows(cfg, c, d) && CallAt(d, t, lane, Setting) && t in d.setReplies
    ensures Follows(cfg, c, e) && CallAt(e, t, lane, Holding)
  {
    hide Follows, Run;
    e := Act(cfg, c, d, t, SetReply);
    if !d.setReplies[t] { e := SpinnerGetsLease(cfg, c, e, t, lane); }
  }

  lemma QueuedIsInLine(cfg: Config, c: Cluster, t: Ticket, lane: Lane, p: Phase)
    requires Reachable(cfg, c) && CallAt(c, t, lane, p) && InLine(p)
    ensures t in SeqAt(c.lines, lane)
  {
    var steps :| Run(cfg, steps) == Some(c);
    EveryRunKeepsInv(cfg, steps);
    assert CallOk(c, t);
  }

  lemma WaiterGetsLease(cfg: Config, c: Cluster, d: Cluster, t: Ticket, lane: Lane) returns (e: Cluster)
    requires Follows(cfg, c, d) && CallAt(d, t, lane, Waiting) && t in SeqAt(d.lines, lane)
    ensures Follows(cfg, c, e) && CallAt(e, t, lane, Holding)
  {
    hide Follows, Run;
    e := AheadLeave(cfg, c, d, t, lane);
    e := Act(cfg, c, e, t, Admit);
    e := SpinnerGetsLease(cfg, c, e, t, lane);
  }

  lemma SetterGetsOn(cfg: Config, c: Cluster, t: Ticket, lane: Lane) returns (d: Cluster)
    requires Follows(cfg, c, c) && CallAt(c, t, lane, Setting)
    ensures Follows(cfg, c, d)
    ensures CallAt(d, t, lane, if t !in c.sets && t !in c.setReplies then Bare else Holding)
  {
    hide Follows, Run;
    if t in c.sets {
      d := SetterGetsLease(cfg, c, c, t, lane);
    } else if t in c.setReplies {
      d := AnsweredGetsLease(cfg, c, c, t, lane);
    } else {
      d := Act(cfg, c, c, t, SetFails);
    }
  }

  lemma EnderGetsDone(cfg: Config, c: Cluster, t: Ticket, lane: Lane, p: Phase) returns (d: Cluster)
    requires Follows(cfg, c, c) && CallAt(c, t, lane, p) && (p.Releasing? || p == Bare)
    ensures Follows(cfg, c, d) && CallAt(d, t, lane, Done)
  {
    hide Follows, Run, SeqAt;
    d := Act(cfg, c, c, t, if p == Bare then BareEnds else ReleaseEnds);
  }

  /**
   * No reachable state is a dead end for a queued call: some continuation runs its body with the lease, unless its
   * SET and reply are lost, when it runs without; and a call that is releasing or runs without lease gets done.
   */
  lemma EveryCallGetsOn(cfg: Config, c: Cluster, t: Ticket, lane: Lane, p: Phase) returns (d: Cluster)
    requires Reachable(cfg, c) && CallAt(c, t, lane, p) && (InLine(p) || p == Bare)
    ensures Follows(cfg, c, d)
    ensures CallAt(d, t, lane, if p.Releasing? || p == Bare then Done
                               else if p == Setting && t !in c.sets && t !in c.setReplies then Bare else Holding)
  {
    FollowsSelf(cfg, c);
    if InLine(p) { QueuedIsInLine(cfg, c, t, lane, p); }
    hide Follows, Reachable, Run, SeqAt, Inv;
    match p
    case Waiting => d := WaiterGetsLease(cfg, c, c, t, lane);
    case Spinning => d := SpinnerGetsLease(cfg, c, c, t, lane);
    case Setting => d := SetterGetsOn(cfg, c, t, lane);
    case Holding => d := c;
    case Releasing(_) => d := EnderGetsDone(cfg, c, t, lane, p);
    case Bare => d := EnderGetsDone(cfg, c, t, lane, p);
  }

  lemma TakeStep(cfg: Config, c: Cluster, step: Step) returns (d: Cluster)
    requires Reachable(cfg, c) && Enabled(cfg, c, step)
    ensures d == Apply(cfg, c, step) && Reachable(cfg, d)
  {
    StepStaysReachable(cfg, c, step);
    d := Apply(cfg, c, step);
  }
}
