/**
 * Get-or-create of a 1:1 conversation (POST /conversations): any number of requests interleave under READ
 * COMMITTED, with a Redis fast path, a transaction-scoped advisory lock per user pair, a pair table and the
 * adoption of legacy conversations that have no pair row.
 */
module DirectConversations {
  import opened Basics

  type User = string
  type ConvId = nat

  datatype Pair = Pair(low: User, high: User)

  /** sortDirectPairUserIds */
  function SortPair(a: User, b: User): Pair {
    if StrLess(a, b) then Pair(a, b) else Pair(b, a)
  }

  /** The sorted pair does not depend on who asks, is strictly ordered, and determines the two users. */
  lemma SortPairIsCanonical(a: User, b: User)
    ensures SortPair(a, b) == SortPair(b, a)
    ensures a != b ==> StrLess(SortPair(a, b).low, SortPair(a, b).high)
    ensures {SortPair(a, b).low, SortPair(a, b).high} == {a, b}
  {
    StrLessTotal(a, b);
  }

  /**
   * `rank` stands for the activity order of the legacy lookup; it changes whenever messages arrive.  Conversations are
   * numbered in the order of creation, which decides between equal ranks.
   */
  datatype Conv = Conv(named: bool, isGroup: bool, members: set<User>, rank: int)

  /**
   * Hit: the Redis read returned c, which is loaded next.  Found: the legacy lookup returned c, its pair row is next.
   * Chosen: the id to answer is known; `adopted` means its pair row is written but not committed.
   * Cached: the Redis write is done, COMMIT is next.  Created: conversation and pair row written, not committed.
   * Recovering: the unique index on the pair refused a row.
   */
  datatype Phase =
    | Started | Hit(c: ConvId) | WantLock | Locked | NoPair | Found(c: ConvId)
    | Chosen(c: ConvId, adopted: bool) | Cached(c: ConvId, adopted: bool)
    | MustCreate | Created(c: ConvId, conv: Conv)
    | Recovering | Answered(c: ConvId, created: bool) | Failed

  datatype Request = Request(requester: User, other: User, phase: Phase)

  datatype World = World(
    convs: map<ConvId, Conv>,
    pairs: map<ConvId, Pair>,
    cache: map<Pair, ConvId>,
    locks: map<int, nat>,
    requests: map<nat, Request>)

  datatype Step =
    | Begin(x: nat, a: User, b: User)
    | CacheGet(x: nat)
    | CacheMiss(x: nat)                        // absent, expired or Redis error
    | LoadFound(x: nat)
    | LoadEmpty(x: nat)                        // the entry was stale
    | TakeLock(x: nat)
    | PairFound(x: nat, c: ConvId)
    | PairMissing(x: nat)
    | FindLegacy(x: nat, c: ConvId)
    | Adopt(x: nat)
    | NoLegacy(x: nat)
    | CacheWrite(x: nat, ok: bool)
    | Create(x: nat, c: ConvId, named: bool)
    | Commit(x: nat, replied: bool)            // the reply, or the load behind it, may fail although it took effect
    | Recover(x: nat, c: ConvId)
    | Fail(x: nat)                             // any error before the cache write, or while creating
    | CommitFails(x: nat)               // nothing is committed, after the cache write
    | Evict(p: Pair)
    | NewGroup(c: ConvId, members: set<User>, named: bool)
    | Touch(c: ConvId, rank: int)

  function PairOf(r: Request): Pair { SortPair(r.requester, r.other) }

  /** The conversation qualifies in findLegacyDirectConversationId. */
  predicate LegacyCandidate(w: World, c: ConvId, a: User, b: User) {
    c in w.convs && !w.convs[c].named && !w.convs[c].isGroup && w.convs[c].members == {a, b}
  }

  /** The same, said of the sorted pair. */
  predicate Thread(w: World, c: ConvId, p: Pair) {
    c in w.convs && !w.convs[c].named && !w.convs[c].isGroup && w.convs[c].members == {p.low, p.high}
  }

  lemma CandidateIsThread(w: World, c: ConvId, a: User, b: User)
    ensures LegacyCandidate(w, c, a, b) <==> Thread(w, c, SortPair(a, b))
  {
    SortPairIsCanonical(a, b);
  }

  predicate BestLegacy(w: World, c: ConvId, a: User, b: User) {
    && LegacyCandidate(w, c, a, b)
    && (forall d <- w.convs :: LegacyCandidate(w, d, a, b) ==>
          w.convs[d].rank < w.convs[c].rank || (w.convs[d].rank == w.convs[c].rank && d <= c))
  }

  predicate Vacant(pairs: map<ConvId, Pair>, p: Pair) { forall c <- pairs :: pairs[c] != p }

  /** The unique index refuses to give pair p to conversation c. */
  predicate Conflicts(pairs: map<ConvId, Pair>, p: Pair, c: ConvId) { exists d <- pairs :: d != c && pairs[d] == p }

  predicate HoldsLock(p: Phase) {
    p == Locked || p == NoPair || p.Found? || p.Chosen? || p.Cached? || p == MustCreate || p.Created?
  }

  predicate In(w: World, x: nat, p: Phase) { x in w.requests && w.requests[x].phase == p }

  predicate Enabled(h: Pair -> int, w: World, step: Step) {
    match step
    case Begin(x, a, b) => x !in w.requests && a != b
    case CacheGet(x) => In(w, x, Started) && PairOf(w.requests[x]) in w.cache
    case CacheMiss(x) => In(w, x, Started)
    case LoadFound(x) => x in w.requests && w.requests[x].phase.Hit? && w.requests[x].phase.c in w.convs
    case LoadEmpty(x) => x in w.requests && w.requests[x].phase.Hit? && w.requests[x].phase.c !in w.convs
    case TakeLock(x) => In(w, x, WantLock) && h(PairOf(w.requests[x])) !in w.locks
    case PairFound(x, c) => In(w, x, Locked) && c in w.pairs && w.pairs[c] == PairOf(w.requests[x])
    case PairMissing(x) => In(w, x, Locked) && Vacant(w.pairs, PairOf(w.requests[x]))
    case FindLegacy(x, c) => In(w, x, NoPair) && BestLegacy(w, c, w.requests[x].requester, w.requests[x].other)
    case Adopt(x) => x in w.requests && w.requests[x].phase.Found?
    case NoLegacy(x) =>
      In(w, x, NoPair) && forall c <- w.convs :: !LegacyCandidate(w, c, w.requests[x].requester, w.requests[x].other)
    case CacheWrite(x, _) => x in w.requests && w.requests[x].phase.Chosen?
    case Create(x, c, _) =>
      && In(w, x, MustCreate) && c !in w.convs
      && (forall y <- w.requests :: w.requests[y].phase.Created? ==> w.requests[y].phase.c != c)
    case Commit(x, _) => x in w.requests && (w.requests[x].phase.Cached? || w.requests[x].phase.Created?)
    case Recover(x, c) => In(w, x, Recovering) && c in w.pairs && w.pairs[c] == PairOf(w.requests[x])
    case Fail(x) =>
      && x in w.requests && !w.requests[x].phase.Answered? && w.requests[x].phase != Failed
      && !w.requests[x].phase.Cached?
    case CommitFails(x) => x in w.requests && w.requests[x].phase.Cached?
    case Evict(p) => p in w.cache
    case NewGroup(c, _, _) =>
      c !in w.convs && (forall y <- w.requests :: w.requests[y].phase.Created? ==> w.requests[y].phase.c != c)
    case Touch(c, _) => c in w.convs
  }

  function Goto(w: World, x: nat, p: Phase): World
    requires x in w.requests
  {
    w.(requests := w.requests[x := w.requests[x].(phase := p)])
  }

  /** Ending the transaction releases its advisory lock, if it has one. */
  function Unlock(h: Pair -> int, w: World, x: nat): map<int, nat>
    requires x in w.requests
  {
    if HoldsLock(w.requests[x].phase) then w.locks - {h(PairOf(w.requests[x]))} else w.locks
  }

  /** The steps of one request that leave the committed tables alone. */
  predicate IsPrivate(step: Step) {
    !(step.Begin? || step.Commit? || step.Evict? || step.NewGroup? || step.Touch?)
  }

  function NewPhase(h: Pair -> int, w: World, step: Step): Phase
    requires Enabled(h, w, step) && IsPrivate(step)
  {
    var r := w.requests[step.x];
    match step
    case CacheGet(x) => Hit(w.cache[PairOf(r)])
    case CacheMiss(x) => WantLock
    case LoadFound(x) => Answered(r.phase.c, false)
    case LoadEmpty(x) => WantLock
    case TakeLock(x) => Locked
    case PairFound(x, c) => Chosen(c, false)
    case PairMissing(x) => NoPair
    case FindLegacy(x, c) => Found(c)
    case Adopt(x) => if Conflicts(w.pairs, PairOf(r), r.phase.c) then Recovering else Chosen(r.phase.c, true)
    case NoLegacy(x) => MustCreate
    case CacheWrite(x, ok) => Cached(r.phase.c, r.phase.adopted)
    case Create(x, c, named) =>
      if Conflicts(w.pairs, PairOf(r), c) then Recovering
      else Created(c, Conv(named, false, {r.requester, r.other}, 0))
    case Recover(x, c) => Answered(c, false)
    case Fail(x) => Failed
    case CommitFails(x) => Failed
  }

  /** The lock is taken in one step and given back when the transaction ends. */
  function NewLocks(h: Pair -> int, w: World, step: Step): map<int, nat>
    requires Enabled(h, w, step) && IsPrivate(step)
  {
    match step
    case TakeLock(x) => w.locks[h(PairOf(w.requests[x])) := x]
    case Adopt(x) =>
      if Conflicts(w.pairs, PairOf(w.requests[x]), w.requests[x].phase.c) then Unlock(h, w, x) else w.locks
    case Create(x, c, _) => if Conflicts(w.pairs, PairOf(w.requests[x]), c) then Unlock(h, w, x) else w.locks
    case Fail(x) => Unlock(h, w, x)
    case CommitFails(x) => Unlock(h, w, x)
    case _ => w.locks
  }

  function NewCache(h: Pair -> int, w: World, step: Step): map<Pair, ConvId>
    requires Enabled(h, w, step) && IsPrivate(step)
  {
    if step.CacheWrite? && step.ok
    then w.cache[PairOf(w.requests[step.x]) := w.requests[step.x].phase.c] else w.cache
  }

  function ApplyPrivate(h: Pair -> int, w: World, step: Step): World
    requires Enabled(h, w, step) && IsPrivate(step)
  {
    Goto(w, step.x, NewPhase(h, w, step)).(locks := NewLocks(h, w, step), cache := NewCache(h, w, step))
  }

  /** Where COMMIT leaves its request. */
  function Outcome(p: Phase, replied: bool): Phase
    requires p.Cached? || p.Created?
  {
    if replied then Answered(p.c, p.Created?) else Failed
  }

  function ApplyCommit(h: Pair -> int, w: World, x: nat, replied: bool): World
    requires Enabled(h, w, Commit(x, replied))
  {
    var r := w.requests[x];
    var v := Goto(w, x, Outcome(r.phase, replied)).(locks := Unlock(h, w, x));
    if r.phase.Created? then v.(convs := w.convs[r.phase.c := r.phase.conv], pairs := w.pairs[r.phase.c := PairOf(r)])
    else if r.phase.adopted then v.(pairs := w.pairs[r.phase.c := PairOf(r)])
    else v
  }

  function Apply(h: Pair -> int, w: World, step: Step): World
    requires Enabled(h, w, step)
  {
    match step
    case Begin(x, a, b) => w.(requests := w.requests[x := Request(a, b, Started)])
    case Commit(x, replied) => ApplyCommit(h, w, x, replied)
    case Evict(p) => w.(cache := w.cache - {p})
    case NewGroup(c, members, named) => w.(convs := w.convs[c := Conv(named, true, members, 0)])
    case Touch(c, rank) => w.(convs := w.convs[c := w.convs[c].(rank := rank)])
    case _ => ApplyPrivate(h, w, step)
  }

  /** Conversations and consistent pair rows may exist beforehand; there may be many legacy threads per pair. */
  ghost predicate Initial(w: World) {
    && w.cache == map[] && w.locks == map[] && w.requests == map[]
    && (forall c <- w.pairs :: RowOk(w, c)) && UniqueRows(w.pairs)
  }

  function Run(h: Pair -> int, start: World, steps: seq<Step>): Option<World> {
    if steps == [] then Some(start)
    else
      var n := |steps| - 1;
      match Run(h, start, steps[..n])
      case None => None
      case Some(w) => if Enabled(h, w, steps[n]) then Some(Apply(h, w, steps[n])) else None
  }

  // ---- Invariant --------------------------------------------------------------------------------------

  predicate RowOk(w: World, c: ConvId)
    requires c in w.pairs
  {
    && c in w.convs && !w.convs[c].isGroup && w.convs[c].members == {w.pairs[c].low, w.pairs[c].high}
    && StrLess(w.pairs[c].low, w.pairs[c].high)
  }

  ghost predicate UniqueRows(pairs: map<ConvId, Pair>) {
    forall c, d :: c in pairs && d in pairs && pairs[c] == pairs[d] ==> c == d
  }

  predicate NeedsVacancy(p: Phase) {
    p == NoPair || p.Found? || p == MustCreate || p.Created? || (p.Chosen? && p.adopted) || (p.Cached? && p.adopted)
  }

  predicate RequestOk(h: Pair -> int, w: World, x: nat)
    requires x in w.requests
  {
    var r := w.requests[x];
    var p := PairOf(r);
    && r.requester != r.other && r.phase != Recovering
    && (HoldsLock(r.phase) ==> h(p) in w.locks && w.locks[h(p)] == x)
    && (NeedsVacancy(r.phase) ==> Vacant(w.pairs, p))
    && (r.phase.Found? ==> Thread(w, r.phase.c, p))
    && (r.phase.Chosen? || r.phase.Cached? ==>
          if r.phase.adopted
          then Thread(w, r.phase.c, p)
          else r.phase.c in w.pairs && w.pairs[r.phase.c] == p)
    && (r.phase.Created? ==>
          r.phase.c !in w.convs && !r.phase.conv.isGroup && r.phase.conv.members == {p.low, p.high})
  }

  /** Pair p answers c: the row is committed, or its writer is between the cache write and COMMIT. */
  ghost predicate Settled(w: World, p: Pair, c: ConvId) {
    || (c in w.pairs && w.pairs[c] == p)
    || (exists x :: In(w, x, Cached(c, true)) && PairOf(w.requests[x]) == p)
  }

  ghost predicate CacheOk(w: World) { forall p <- w.cache :: Settled(w, p, w.cache[p]) }

  /** The request has answered c, or has read c from the cache and goes on to answer it. */
  predicate Says(p: Phase) { p.Answered? || p.Hit? }

  ghost predicate AnswersOk(w: World) {
    forall x <- w.requests :: Says(w.requests[x].phase) ==> Settled(w, PairOf(w.requests[x]), w.requests[x].phase.c)
  }

  /** Two uncommitted new conversations have different ids. */
  predicate FreshApart(p: Phase, q: Phase) { p.Created? && q.Created? ==> p.c != q.c }

  ghost predicate TablesOk(h: Pair -> int, w: World) {
    && (forall c <- w.pairs :: RowOk(w, c)) && UniqueRows(w.pairs)
    && (forall x <- w.requests :: RequestOk(h, w, x))
    && (forall x, y :: x in w.requests && y in w.requests && x != y ==>
          FreshApart(w.requests[x].phase, w.requests[y].phase))
  }

  ghost predicate Inv(h: Pair -> int, w: World) { TablesOk(h, w) && CacheOk(w) && AnswersOk(w) }

  // ---- Preservation -----------------------------------------------------------------------------------

  /** What a private step may do: move request x, and take or drop x's own lock. */
  predicate Moved(h: Pair -> int, w: World, v: World, x: nat, p: Phase)
    requires x in w.requests
  {
    var k := h(PairOf(w.requests[x]));
    && v.convs == w.convs && v.pairs == w.pairs
    && v.requests == w.requests[x := w.requests[x].(phase := p)]
    && (v.locks == w.locks
        || (v.locks == w.locks - {k} && HoldsLock(w.requests[x].phase) && !HoldsLock(p))
        || (v.locks == w.locks[k := x] && k !in w.locks))
  }

  lemma MovedKeepsTables(h: Pair -> int, w: World, v: World, x: nat, p: Phase)
    requires TablesOk(h, w) && x in w.requests && Moved(h, w, v, x, p) && RequestOk(h, v, x)
    requires p.Created? ==> forall y <- w.requests :: y != x ==> FreshApart(p, w.requests[y].phase)
    ensures TablesOk(h, v)
  {
    forall y <- v.requests ensures RequestOk(h, v, y) {
      assert RequestOk(h, w, y) && RequestOk(h, w, x);
    }
    forall c <- v.pairs ensures RowOk(v, c) { assert RowOk(w, c); }
  }

  /** No unique violation: the chosen pair has no other row, committed or not. */
  lemma NoConflict(h: Pair -> int, w: World, x: nat)
    requires TablesOk(h, w) && x in w.requests && NeedsVacancy(w.requests[x].phase)
    ensures forall c :: !Conflicts(w.pairs, PairOf(w.requests[x]), c)
    ensures forall y <- w.requests ::
              y != x && PairOf(w.requests[y]) == PairOf(w.requests[x]) ==> !HoldsLock(w.requests[y].phase)
  {
    assert RequestOk(h, w, x);
    forall y <- w.requests | y != x && PairOf(w.requests[y]) == PairOf(w.requests[x])
      ensures !HoldsLock(w.requests[y].phase)
    {
      assert RequestOk(h, w, y);
    }
  }

  lemma PrivateTouches(h: Pair -> int, w: World, step: Step)
    requires Enabled(h, w, step) && IsPrivate(step)
    ensures step.x in w.requests
    ensures Apply(h, w, step) == ApplyPrivate(h, w, step)
    ensures Apply(h, w, step).convs == w.convs && Apply(h, w, step).pairs == w.pairs
    ensures Apply(h, w, step).requests
            == w.requests[step.x := w.requests[step.x].(phase := NewPhase(h, w, step))]
  {
    hide NewPhase, NewLocks, NewCache;
  }

  lemma PrivateMoves(h: Pair -> int, w: World, step: Step)
    requires TablesOk(h, w) && Enabled(h, w, step) && IsPrivate(step)
    ensures step.x in w.requests && Moved(h, w, Apply(h, w, step), step.x, NewPhase(h, w, step))
  {
    assert RequestOk(h, w, step.x);
    PrivateTouches(h, w, step);
    PrivateLocks(h, w, step);
    hide Apply, Enabled, RequestOk, NewPhase, NewLocks, NewCache, HoldsLock, SortPair;
  }

  lemma PrivateLocks(h: Pair -> int, w: World, step: Step)
    requires Enabled(h, w, step) && IsPrivate(step)
    ensures var k := h(PairOf(w.requests[step.x]));
            var locks := NewLocks(h, w, step);
            || locks == w.locks
            || (locks == w.locks - {k} && HoldsLock(w.requests[step.x].phase) && !HoldsLock(NewPhase(h, w, step)))
            || (locks == w.locks[k := step.x] && k !in w.locks)
  {
    hide SortPair, BestLegacy, LegacyCandidate, Vacant, Conflicts;
  }

  /** Traffic of others: a request begins, a cache entry goes, a group appears, messages arrive. */
  predicate IsTraffic(step: Step) { step.Begin? || step.Evict? || step.NewGroup? || step.Touch? }

  lemma TrafficTouches(h: Pair -> int, w: World, step: Step)
    requires Enabled(h, w, step) && IsTraffic(step)
    ensures var v := Apply(h, w, step);
            && v.pairs == w.pairs && v.locks == w.locks
            && (step.Begin? || step.Evict? ==> v.convs == w.convs)
            && v.requests
               == (if step.Begin? then w.requests[step.x := Request(step.a, step.b, Started)] else w.requests)
            && v.cache == (if step.Evict? then w.cache - {step.p} else w.cache)
  {}

  lemma CommitTouches(h: Pair -> int, w: World, x: nat, replied: bool)
    requires Enabled(h, w, Commit(x, replied))
    ensures var v := Apply(h, w, Commit(x, replied));
            var r := w.requests[x];
            && v.cache == w.cache
            && v.requests == w.requests[x := Request(r.requester, r.other, Outcome(r.phase, replied))]
            && (v.pairs == w.pairs || v.pairs == w.pairs[r.phase.c := PairOf(r)])
  {
    hide SortPair, Unlock, HoldsLock, BestLegacy, LegacyCandidate, Vacant, Conflicts, ApplyPrivate;
  }

  predicate Chooses(step: Step) { step.FindLegacy? || step.Adopt? || step.Create? }

  lemma ChoosingRequestOk(h: Pair -> int, w: World, step: Step)
    requires Enabled(h, w, step) && Chooses(step) && RequestOk(h, w, step.x)
    requires forall c :: !Conflicts(w.pairs, PairOf(w.requests[step.x]), c)
    ensures step.x in Apply(h, w, step).requests && RequestOk(h, Apply(h, w, step), step.x)
  {
    SortPairIsCanonical(w.requests[step.x].requester, w.requests[step.x].other);
  }

  lemma PlainRequestOk(h: Pair -> int, w: World, step: Step)
    requires Enabled(h, w, step) && IsPrivate(step) && !Chooses(step) && RequestOk(h, w, step.x)
    ensures step.x in Apply(h, w, step).requests && RequestOk(h, Apply(h, w, step), step.x)
  {
    PrivateTouches(h, w, step);
    hide Apply, SortPair, NewCache, BestLegacy;
  }

  lemma PrivateRequestOk(h: Pair -> int, w: World, step: Step)
    requires TablesOk(h, w) && Enabled(h, w, step) && IsPrivate(step)
    ensures step.x in Apply(h, w, step).requests && RequestOk(h, Apply(h, w, step), step.x)
  {
    assert step.x in w.requests;
    assert RequestOk(h, w, step.x);
    if Chooses(step) {
      assert NeedsVacancy(w.requests[step.x].phase);
      NoConflict(h, w, step.x);
      hide Apply, TablesOk;
      ChoosingRequestOk(h, w, step);
    } else {
      hide Apply, TablesOk, Enabled;
      PlainRequestOk(h, w, step);
    }
  }

  lemma PrivateKeepsTables(h: Pair -> int, w: World, step: Step)
    requires TablesOk(h, w) && Enabled(h, w, step) && IsPrivate(step)
    ensures TablesOk(h, Apply(h, w, step))
  {
    PrivateMoves(h, w, step);
    PrivateRequestOk(h, w, step);
    MovedKeepsTables(h, w, Apply(h, w, step), step.x, NewPhase(h, w, step));
  }

  lemma BeginKeepsTables(h: Pair -> int, w: World, step: Step)
    requires TablesOk(h, w) && Enabled(h, w, step) && (step.Begin? || step.Evict?)
    ensures TablesOk(h, Apply(h, w, step))
  {
    var v := Apply(h, w, step);
    forall y <- v.requests ensures RequestOk(h, v, y) { assert y in w.requests ==> RequestOk(h, w, y); }
    forall c <- v.pairs ensures RowOk(v, c) { assert RowOk(w, c); }
  }

  /** New groups and new activity change no member set and no pair row. */
  lemma OtherTrafficKeepsTables(h: Pair -> int, w: World, step: Step)
    requires TablesOk(h, w) && Enabled(h, w, step) && (step.NewGroup? || step.Touch?)
    ensures TablesOk(h, Apply(h, w, step))
  {
    var v := Apply(h, w, step);
    forall y <- v.requests ensures RequestOk(h, v, y) { assert RequestOk(h, w, y); }
    forall c <- v.pairs ensures RowOk(v, c) { assert RowOk(w, c); }
  }

  /** The row a commit publishes. */
  predicate Publishes(p: Phase) { p.Created? || (p.Cached? && p.adopted) }

  lemma CommitKeepsRows(h: Pair -> int, w: World, x: nat, replied: bool)
    requires TablesOk(h, w) && Enabled(h, w, Commit(x, replied))
    ensures var v := Apply(h, w, Commit(x, replied)); (forall c <- v.pairs :: RowOk(v, c)) && UniqueRows(v.pairs)
    ensures var v := Apply(h, w, Commit(x, replied)); forall c <- w.pairs :: c in v.pairs && v.pairs[c] == w.pairs[c]
  {
    var v := Apply(h, w, Commit(x, replied));
    assert RequestOk(h, w, x);
    var r := w.requests[x];
    if Publishes(r.phase) {
      AdoptionAddsRow(h, w, x);
      SortPairIsCanonical(r.requester, r.other);
    }
    forall c <- v.pairs ensures RowOk(v, c) { assert c in w.pairs ==> RowOk(w, c); }
  }

  lemma SortedPairsByMembers(p: Pair, q: Pair)
    requires StrLess(p.low, p.high) && StrLess(q.low, q.high) && {p.low, p.high} == {q.low, q.high}
    ensures p == q
  {
    StrLessTotal(p.low, p.high);
    assert p.low in {q.low, q.high} && p.high in {q.low, q.high};
  }

  /** A legacy thread with a pair row would already answer its own pair, so adoption never rewrites a row. */
  lemma AdoptionAddsRow(h: Pair -> int, w: World, x: nat)
    requires TablesOk(h, w) && x in w.requests && Publishes(w.requests[x].phase)
    ensures w.requests[x].phase.c !in w.pairs && Vacant(w.pairs, PairOf(w.requests[x]))
  {
    var r := w.requests[x];
    assert RequestOk(h, w, x);
    SortPairIsCanonical(r.requester, r.other);
    if r.phase.c in w.pairs {
      assert RowOk(w, r.phase.c);
      SortedPairsByMembers(w.pairs[r.phase.c], PairOf(r));
    }
  }

  /** What the commit of x leaves of the tables. */
  lemma CommitWrites(h: Pair -> int, w: World, x: nat, replied: bool)
    requires Enabled(h, w, Commit(x, replied))
    ensures var v := Apply(h, w, Commit(x, replied));
            var r := w.requests[x];
            && v.locks == w.locks - {h(PairOf(r))}
            && v.convs == (if r.phase.Created? then w.convs[r.phase.c := r.phase.conv] else w.convs)
            && v.pairs == (if Publishes(r.phase) then w.pairs[r.phase.c := PairOf(r)] else w.pairs)
  {
    hide SortPair;
  }

  /** A request stays in order as long as its lock, its vacancy, and all rows and conversations stay. */
  lemma RequestFramed(h: Pair -> int, w: World, v: World, y: nat)
    requires y in w.requests && RequestOk(h, w, y) && y in v.requests && v.requests[y] == w.requests[y]
    requires var k := h(PairOf(w.requests[y])); k in w.locks && w.locks[k] == y ==> k in v.locks && v.locks[k] == y
    requires NeedsVacancy(w.requests[y].phase) ==> Vacant(v.pairs, PairOf(w.requests[y]))
    requires w.requests[y].phase.Created? ==> w.requests[y].phase.c !in v.convs
    requires forall c <- w.convs :: c in v.convs && v.convs[c] == w.convs[c]
    requires forall c <- w.pairs :: c in v.pairs && v.pairs[c] == w.pairs[c]
    ensures RequestOk(h, v, y)
  {
    hide HoldsLock, SortPair, Vacant;
  }

  /** No other request of the pair relies on there being no row. */
  lemma CommitKeepsVacancy(h: Pair -> int, w: World, x: nat, y: nat)
    requires TablesOk(h, w) && x in w.requests && Publishes(w.requests[x].phase)
    requires y in w.requests && y != x && NeedsVacancy(w.requests[y].phase)
    ensures PairOf(w.requests[y]) != PairOf(w.requests[x])
    ensures Vacant(w.pairs[w.requests[x].phase.c := PairOf(w.requests[x])], PairOf(w.requests[y]))
  {
    assert RequestOk(h, w, x) && RequestOk(h, w, y);
    NoConflict(h, w, y);
    hide TablesOk, SortPair;
  }

  lemma CommitKeepsOther(h: Pair -> int, w: World, x: nat, replied: bool, y: nat)
    requires TablesOk(h, w) && Enabled(h, w, Commit(x, replied)) && y in w.requests && y != x
    ensures y in Apply(h, w, Commit(x, replied)).requests && RequestOk(h, Apply(h, w, Commit(x, replied)), y)
  {
    assert RequestOk(h, w, x) && RequestOk(h, w, y);
    CommitWrites(h, w, x, replied);
    CommitTouches(h, w, x, replied);
    if Publishes(w.requests[x].phase) {
      AdoptionAddsRow(h, w, x);
      assert FreshApart(w.requests[x].phase, w.requests[y].phase);
      if NeedsVacancy(w.requests[y].phase) { CommitKeepsVacancy(h, w, x, y); }
    }
    hide Apply, TablesOk, SortPair, Enabled, Vacant, NeedsVacancy;
    RequestFramed(h, w, Apply(h, w, Commit(x, replied)), y);
  }

  lemma CommitKeepsRequests(h: Pair -> int, w: World, x: nat, replied: bool, y: nat)
    requires TablesOk(h, w) && Enabled(h, w, Commit(x, replied)) && y in w.requests
    ensures RequestOk(h, Apply(h, w, Commit(x, replied)), y)
  {
    if y == x {
      assert RequestOk(h, w, x);
      CommitTouches(h, w, x, replied);
      hide Apply, TablesOk, SortPair;
    } else {
      CommitKeepsOther(h, w, x, replied, y);
      hide Apply, TablesOk, Enabled, RequestOk, SortPair;
    }
  }

  lemma CommitKeepsTables(h: Pair -> int, w: World, x: nat, replied: bool)
    requires TablesOk(h, w) && Enabled(h, w, Commit(x, replied))
    ensures TablesOk(h, Apply(h, w, Commit(x, replied)))
  {
    CommitKeepsRows(h, w, x, replied);
    var v := Apply(h, w, Commit(x, replied));
    CommitTouches(h, w, x, replied);
    forall y <- v.requests ensures RequestOk(h, v, y) { CommitKeepsRequests(h, w, x, replied, y); }
    hide Apply, RequestOk, RowOk;
    forall y, z | y in v.requests && z in v.requests && y != z
      ensures FreshApart(v.requests[y].phase, v.requests[z].phase)
    {
      assert FreshApart(w.requests[y].phase, w.requests[z].phase);
    }
  }

  lemma TablesKept(h: Pair -> int, w: World, step: Step)
    requires TablesOk(h, w) && Enabled(h, w, step)
    ensures TablesOk(h, Apply(h, w, step))
  {
    hide Apply, Enabled, TablesOk;
    if IsPrivate(step) {
      PrivateKeepsTables(h, w, step);
    } else if step.Commit? {
      CommitKeepsTables(h, w, step.x, step.replied);
    } else if step.Begin? || step.Evict? {
      BeginKeepsTables(h, w, step);
    } else {
      OtherTrafficKeepsTables(h, w, step);
    }
  }

  // ---- Settled answers --------------------------------------------------------------------------------

  /** A pair has at most one settled conversation. */
  lemma SettledUnique(h: Pair -> int, w: World, p: Pair, c: ConvId, d: ConvId)
    requires TablesOk(h, w) && Settled(w, p, c) && Settled(w, p, d)
    ensures c == d
  {
    forall y <- w.requests | NeedsVacancy(w.requests[y].phase)
      ensures Vacant(w.pairs, PairOf(w.requests[y])) && w.locks[h(PairOf(w.requests[y]))] == y
    {
      assert RequestOk(h, w, y);
    }
  }

  /** COMMIT failing after an adopted thread was already put into the cache. */
  predicate LosesAdoption(w: World, step: Step) {
    step.CommitFails? && step.x in w.requests && w.requests[step.x].phase.Cached? && w.requests[step.x].phase.adopted
  }

  lemma RowsKept(h: Pair -> int, w: World, step: Step, c: ConvId)
    requires TablesOk(h, w) && Enabled(h, w, step) && c in w.pairs
    ensures c in Apply(h, w, step).pairs && Apply(h, w, step).pairs[c] == w.pairs[c]
  {
    if step.Commit? {
      CommitKeepsRows(h, w, step.x, step.replied);
    } else if IsPrivate(step) {
      PrivateTouches(h, w, step);
    } else {
      TrafficTouches(h, w, step);
    }
    hide Apply, Enabled, TablesOk;
  }

  /** The request between cache write and COMMIT can only commit or fail to. */
  lemma AdopterOnlyCommits(h: Pair -> int, w: World, step: Step, c: ConvId)
    requires Enabled(h, w, step) && IsPrivate(step) && In(w, step.x, Cached(c, true))
    ensures LosesAdoption(w, step)
  {
    hide BestLegacy, LegacyCandidate, Vacant;
  }

  lemma AdopterKept(h: Pair -> int, w: World, step: Step, x: nat, c: ConvId)
    requires Enabled(h, w, step) && !LosesAdoption(w, step) && In(w, x, Cached(c, true))
    ensures var v := Apply(h, w, step);
            && x in v.requests && PairOf(v.requests[x]) == PairOf(w.requests[x])
            && (In(v, x, Cached(c, true)) || (c in v.pairs && v.pairs[c] == PairOf(w.requests[x])))
  {
    if IsPrivate(step) {
      PrivateTouches(h, w, step);
      if step.x == x { AdopterOnlyCommits(h, w, step, c); }
      hide Apply, Enabled, LosesAdoption;
    } else if IsTraffic(step) {
      TrafficTouches(h, w, step);
      assert step.Begin? ==> step.x != x;
      hide Apply, Enabled;
    }
    hide SortPair, Unlock, ApplyPrivate;
  }

  lemma SettledKept(h: Pair -> int, w: World, step: Step, p: Pair, c: ConvId)
    requires TablesOk(h, w) && Enabled(h, w, step) && !LosesAdoption(w, step) && Settled(w, p, c)
    ensures Settled(Apply(h, w, step), p, c)
  {
    hide Apply, Enabled, TablesOk, LosesAdoption;
    if c in w.pairs && w.pairs[c] == p {
      RowsKept(h, w, step, c);
    } else {
      var x :| In(w, x, Cached(c, true)) && PairOf(w.requests[x]) == p;
      AdopterKept(h, w, step, x, c);
    }
  }

  /** A new cache entry or answer names a settled conversation. */
  lemma NewEntrySettled(h: Pair -> int, w: World, step: Step)
    requires Inv(h, w) && Enabled(h, w, step)
    ensures var v := Apply(h, w, step);
      && (step.CacheWrite? || step.Commit? || step.LoadFound? ==>
            Settled(v, PairOf(w.requests[step.x]), w.requests[step.x].phase.c))
      && (step.CacheGet? ==> Settled(v, PairOf(w.requests[step.x]), w.cache[PairOf(w.requests[step.x])]))
      && (step.Recover? ==> Settled(v, PairOf(w.requests[step.x]), step.c))
  {
    var v := Apply(h, w, step);
    if step.CacheWrite? || step.Commit? {
      assert RequestOk(h, w, step.x);
      if step.CacheWrite? && w.requests[step.x].phase.adopted {
        assert In(v, step.x, Cached(w.requests[step.x].phase.c, true));
      }
    } else if step.CacheGet? {
      SettledKept(h, w, step, PairOf(w.requests[step.x]), w.cache[PairOf(w.requests[step.x])]);
    } else if step.LoadFound? {
      SettledKept(h, w, step, PairOf(w.requests[step.x]), w.requests[step.x].phase.c);
    }
  }

  lemma CacheFrame(h: Pair -> int, w: World, step: Step)
    requires Enabled(h, w, step)
    ensures var v := Apply(h, w, step);
      forall p <- v.cache :: (p in w.cache && v.cache[p] == w.cache[p])
        || (step.CacheWrite? && p == PairOf(w.requests[step.x]) && v.cache[p] == w.requests[step.x].phase.c)
  {
    if IsPrivate(step) {
      PrivateTouches(h, w, step);
    } else if step.Commit? {
      CommitTouches(h, w, step.x, step.replied);
    } else {
      TrafficTouches(h, w, step);
    }
    hide Apply, Enabled, SortPair, NewPhase, NewLocks;
  }

  lemma PrivateAnswers(h: Pair -> int, w: World, step: Step)
    requires Enabled(h, w, step) && IsPrivate(step) && Says(NewPhase(h, w, step))
    ensures || (step.CacheGet? && NewPhase(h, w, step).c == w.cache[PairOf(w.requests[step.x])])
            || (step.LoadFound? && NewPhase(h, w, step).c == w.requests[step.x].phase.c)
            || (step.Recover? && NewPhase(h, w, step).c == step.c)
  {
    hide SortPair, BestLegacy, LegacyCandidate, Vacant, Conflicts;
  }

  lemma AnswerFrame(h: Pair -> int, w: World, step: Step, y: nat)
    requires Enabled(h, w, step) && y in Apply(h, w, step).requests && Says(Apply(h, w, step).requests[y].phase)
    ensures var v := Apply(h, w, step);
      var p, c := PairOf(v.requests[y]), v.requests[y].phase.c;
      || (y in w.requests && v.requests[y] == w.requests[y])
      || (y in w.requests && p == PairOf(w.requests[y]) && y == step.x
          && (((step.Commit? || step.LoadFound?) && c == w.requests[y].phase.c)
              || (step.CacheGet? && c == w.cache[p]) || (step.Recover? && c == step.c)))
  {
    if IsPrivate(step) {
      PrivateTouches(h, w, step);
      if step.x == y { PrivateAnswers(h, w, step); }
    } else if step.Commit? {
      CommitTouches(h, w, step.x, step.replied);
    } else {
      TrafficTouches(h, w, step);
    }
    hide Apply, Enabled, NewPhase, SortPair;
  }

  lemma AnswersKept(h: Pair -> int, w: World, step: Step)
    requires Inv(h, w) && Enabled(h, w, step) && !LosesAdoption(w, step)
    ensures CacheOk(Apply(h, w, step)) && AnswersOk(Apply(h, w, step))
  {
    var v := Apply(h, w, step);
    hide Apply, Enabled, TablesOk, Settled, LosesAdoption;
    NewEntrySettled(h, w, step);
    CacheFrame(h, w, step);
    forall p <- v.cache ensures Settled(v, p, v.cache[p]) {
      if p in w.cache && v.cache[p] == w.cache[p] {
        SettledKept(h, w, step, p, w.cache[p]);
      }
    }
    forall y <- v.requests | Says(v.requests[y].phase)
      ensures Settled(v, PairOf(v.requests[y]), v.requests[y].phase.c)
    {
      AnswerFrame(h, w, step, y);
      if y in w.requests && v.requests[y] == w.requests[y] {
        SettledKept(h, w, step, PairOf(w.requests[y]), w.requests[y].phase.c);
      }
    }
  }

  /** Whether a run has a COMMIT that fails after caching an adopted thread. */
  ghost predicate CommitsHold(h: Pair -> int, start: World, steps: seq<Step>) {
    forall i :: 0 <= i < |steps| && Run(h, start, steps[..i]).Some? ==>
      !LosesAdoption(Run(h, start, steps[..i]).value, steps[i])
  }

  lemma CommitsHoldPrefix(h: Pair -> int, start: World, steps: seq<Step>)
    requires steps != [] && CommitsHold(h, start, steps)
    ensures CommitsHold(h, start, steps[..|steps| - 1])
    ensures Run(h, start, steps[..|steps| - 1]).Some? ==>
              !LosesAdoption(Run(h, start, steps[..|steps| - 1]).value, steps[|steps| - 1])
  {
    hide Run, LosesAdoption;
    var before := steps[..|steps| - 1];
    forall i | 0 <= i < |before| && Run(h, start, before[..i]).Some?
      ensures !LosesAdoption(Run(h, start, before[..i]).value, before[i])
    {
      assert before[..i] == steps[..i];
    }
  }

  lemma {:induction false} InvGoesOn(h: Pair -> int, start: World, steps: seq<Step>)
    requires Inv(h, start) && CommitsHold(h, start, steps)
    ensures Run(h, start, steps).Some? ==> Inv(h, Run(h, start, steps).value)
  {
    if steps == [] {
    } else {
      hide Apply, Enabled, TablesOk, CacheOk, AnswersOk, LosesAdoption, CommitsHold;
      var n := |steps| - 1;
      CommitsHoldPrefix(h, start, steps);
      InvGoesOn(h, start, steps[..n]);
      if Run(h, start, steps).Some? {
        TablesKept(h, Run(h, start, steps[..n]).value, steps[n]);
        AnswersKept(h, Run(h, start, steps[..n]).value, steps[n]);
      }
    }
  }

  lemma InitialInv(h: Pair -> int, start: World)
    requires Initial(start)
    ensures Inv(h, start)
  {}

  lemma EveryRunKeepsInv(h: Pair -> int, start: World, steps: seq<Step>)
    requires Initial(start) && CommitsHold(h, start, steps)
    ensures Run(h, start, steps).Some? ==> Inv(h, Run(h, start, steps).value)
  {
    InitialInv(h, start);
    InvGoesOn(h, start, steps);
  }

  // ---- Main results -----------------------------------------------------------------------------------

  /** All answers given for pair p so far name one conversation. */
  ghost predicate AgreeOn(w: World, p: Pair) {
    forall x, y ::
      && x in w.requests && y in w.requests && w.requests[x].phase.Answered? && w.requests[y].phase.Answered?
      && PairOf(w.requests[x]) == p && PairOf(w.requests[y]) == p
      ==> w.requests[x].phase.c == w.requests[y].phase.c
  }

  lemma InvMeansAgreement(h: Pair -> int, w: World, p: Pair)
    requires Inv(h, w)
    ensures AgreeOn(w, p)
  {
    forall x, y |
      && x in w.requests && y in w.requests && w.requests[x].phase.Answered? && w.requests[y].phase.Answered?
      && PairOf(w.requests[x]) == p && PairOf(w.requests[y]) == p
      ensures w.requests[x].phase.c == w.requests[y].phase.c
    {
      assert Settled(w, p, w.requests[x].phase.c) && Settled(w, p, w.requests[y].phase.c);
      hide TablesOk, Settled, CacheOk, AnswersOk;
      SettledUnique(h, w, p, w.requests[x].phase.c, w.requests[y].phase.c);
    }
  }

  /** All successful answers for one unordered pair name the same conversation, whoever asked. */
  lemma AnswersAgree(h: Pair -> int, start: World, steps: seq<Step>, x: nat, y: nat)
    requires Initial(start) && CommitsHold(h, start, steps) && Run(h, start, steps).Some?
    requires var w := Run(h, start, steps).value;
             && x in w.requests && y in w.requests && w.requests[x].phase.Answered? && w.requests[y].phase.Answered?
             && {w.requests[x].requester, w.requests[x].other} == {w.requests[y].requester, w.requests[y].other}
    ensures var w := Run(h, start, steps).value; w.requests[x].phase.c == w.requests[y].phase.c
  {
    EveryRunKeepsInv(h, start, steps);
    var w := Run(h, start, steps).value;
    hide Run, Initial, CommitsHold;
    InvMeansAgreement(h, w, PairOf(w.requests[x]));
    assert RequestOk(h, w, x) && RequestOk(h, w, y);
    SortPairIsCanonical(w.requests[x].requester, w.requests[x].other);
    SortPairIsCanonical(w.requests[y].requester, w.requests[y].other);
    SortedPairsByMembers(PairOf(w.requests[x]), PairOf(w.requests[y]));
  }

  /**
   * Each pair has at most one row, a row stays as it is for ever, its conversation is the 1:1 thread of exactly
   * those users, and the conflict recovery is never entered.
   */
  lemma PairRowsAreStable(h: Pair -> int, start: World, steps: seq<Step>, step: Step)
    requires Initial(start) && CommitsHold(h, start, steps) && Run(h, start, steps).Some?
    requires Enabled(h, Run(h, start, steps).value, step)
    ensures var w := Run(h, start, steps).value;
            var v := Apply(h, w, step);
            && UniqueRows(v.pairs)
            && (forall c <- w.pairs :: c in v.pairs && v.pairs[c] == w.pairs[c])
            && (forall c <- v.pairs :: RowOk(v, c))
            && (forall x <- v.requests :: v.requests[x].phase != Recovering)
  {
    EveryRunKeepsInv(h, start, steps);
    var w := Run(h, start, steps).value;
    TablesKept(h, w, step);
    var v := Apply(h, w, step);
    hide Run, Apply, Enabled, Initial, CommitsHold;
    forall c <- w.pairs ensures c in v.pairs && v.pairs[c] == w.pairs[c] { RowsKept(h, w, step, c); }
    forall x <- v.requests ensures v.requests[x].phase != Recovering { assert RequestOk(h, v, x); }
  }

  predicate HasAnswer(w: World, y: nat, p: Pair, c: ConvId) {
    y in w.requests && w.requests[y].phase.Answered? && PairOf(w.requests[y]) == p && w.requests[y].phase.c == c
  }

  /** Request y for pair p has answered c, or has read c from the cache and not answered yet. */
  predicate HasRead(w: World, y: nat, p: Pair, c: ConvId) {
    y in w.requests && Says(w.requests[y].phase) && PairOf(w.requests[y]) == p && w.requests[y].phase.c == c
  }

  /** The cache, an answer or a cache read still to be answered names c for the pair. */
  predicate Named(w: World, p: Pair, c: ConvId) {
    (p in w.cache && w.cache[p] == c) || exists y <- w.requests :: HasRead(w, y, p, c)
  }

  lemma FailureTouches(h: Pair -> int, w: World, x: nat)
    requires Enabled(h, w, CommitFails(x))
    ensures var v := Apply(h, w, CommitFails(x));
            && v.convs == w.convs && v.pairs == w.pairs && v.cache == w.cache
            && v.requests == w.requests[x := Request(w.requests[x].requester, w.requests[x].other, Failed)]
            && v.locks == w.locks - {h(PairOf(w.requests[x]))}
  {
    hide SortPair;
  }

  lemma LostAdoption(h: Pair -> int, w: World, x: nat)
    requires Inv(h, w) && Enabled(h, w, CommitFails(x)) && w.requests[x].phase.adopted
    requires !Named(w, PairOf(w.requests[x]), w.requests[x].phase.c)
    ensures var v := Apply(h, w, CommitFails(x)); CacheOk(v) && AnswersOk(v)
  {
    var p, c := PairOf(w.requests[x]), w.requests[x].phase.c;
    var v := Apply(h, w, CommitFails(x));
    LostAdoptionUnsettles(h, w, x);
    FailureTouches(h, w, x);
    hide Apply, Enabled, Settled, TablesOk, SortPair;
    forall y <- v.requests | Says(v.requests[y].phase)
      ensures Settled(v, PairOf(v.requests[y]), v.requests[y].phase.c)
    {
      assert v.requests[y] == w.requests[y] && !HasRead(w, y, p, c);
    }
  }

  lemma LostAdoptionUnsettles(h: Pair -> int, w: World, x: nat)
    requires Inv(h, w) && Enabled(h, w, CommitFails(x)) && w.requests[x].phase.adopted
    ensures var p, c := PairOf(w.requests[x]), w.requests[x].phase.c;
            var v := Apply(h, w, CommitFails(x));
            && !Settled(v, p, c)
            && (forall q, d :: Settled(w, q, d) && (q != p || d != c) ==> Settled(v, q, d))
  {
    var p, c := PairOf(w.requests[x]), w.requests[x].phase.c;
    var v := Apply(h, w, CommitFails(x));
    assert RequestOk(h, w, x);
    FailureTouches(h, w, x);
    hide Apply, Enabled, SortPair;
    forall y <- v.requests | v.requests[y].phase == Cached(c, true) ensures PairOf(v.requests[y]) != p {
      assert RequestOk(h, w, y);
    }
    forall q, d | Settled(w, q, d) && (q != p || d != c) ensures Settled(v, q, d) {
      if !(d in w.pairs && w.pairs[d] == q) {
        var y :| In(w, y, Cached(d, true)) && PairOf(w.requests[y]) == q;
        assert In(v, y, Cached(d, true));
      }
    }
  }

  // ---- When a failed COMMIT is harmless ----------------------------------------------------------------

  /** However the system goes on without a further COMMIT failing after a cached adoption, answers for p agree. */
  ghost predicate AgreeForEver(h: Pair -> int, v: World, p: Pair) {
    forall steps :: CommitsHold(h, v, steps) && Run(h, v, steps).Some? ==> AgreeOn(Run(h, v, steps).value, p)
  }

  lemma InvAgreesForEver(h: Pair -> int, v: World, p: Pair)
    requires Inv(h, v)
    ensures AgreeForEver(h, v, p)
  {
    hide Inv, Run, AgreeOn, CommitsHold;
    forall steps | CommitsHold(h, v, steps) && Run(h, v, steps).Some? ensures AgreeOn(Run(h, v, steps).value, p) {
      InvGoesOn(h, v, steps);
      InvMeansAgreement(h, Run(h, v, steps).value, p);
    }
  }

  /** What a request for the pair may say while c is its only thread. */
  predicate SaysOnly(p: Phase, c: ConvId) {
    && (p.Hit? || p.Found? || p.Chosen? || p.Cached? || p.Answered? ==> p.c == c)
    && p != MustCreate && !p.Created?
  }

  /** c is the only thread of pair p, and nothing anywhere names another one for it. */
  ghost predicate OnlyThread(w: World, p: Pair, c: ConvId) {
    && Thread(w, c, p)
    && (forall d <- w.convs :: Thread(w, d, p) ==> d == c)
    && (forall d <- w.pairs :: w.pairs[d] == p ==> d == c)
    && (p in w.cache ==> w.cache[p] == c)
    && (forall y <- w.requests :: PairOf(w.requests[y]) == p ==> SaysOnly(w.requests[y].phase, c))
  }

  lemma OnlyThreadAgrees(w: World, p: Pair, c: ConvId)
    requires OnlyThread(w, p, c)
    ensures AgreeOn(w, p)
  {}

  /** What a private step makes of its own request. */
  lemma PrivateSaysOnly(h: Pair -> int, w: World, step: Step, p: Pair, c: ConvId)
    requires Enabled(h, w, step) && IsPrivate(step) && step.x in w.requests && OnlyThread(w, p, c)
    requires PairOf(w.requests[step.x]) == p
    ensures SaysOnly(NewPhase(h, w, step), c)
  {
    var r := w.requests[step.x];
    CandidateIsThread(w, c, r.requester, r.other);
    if step.FindLegacy? { CandidateIsThread(w, step.c, r.requester, r.other); }
    assert SaysOnly(r.phase, c);
    hide SortPair, Thread, Conflicts, Vacant;
  }

  lemma PrivateCache(h: Pair -> int, w: World, step: Step, p: Pair, c: ConvId)
    requires Enabled(h, w, step) && IsPrivate(step) && OnlyThread(w, p, c) && p in NewCache(h, w, step)
    ensures NewCache(h, w, step)[p] == c
  {
    hide Thread, SortPair;
  }

  lemma PrivateKeepsOnly(h: Pair -> int, w: World, step: Step, p: Pair, c: ConvId)
    requires Enabled(h, w, step) && IsPrivate(step) && OnlyThread(w, p, c)
    ensures OnlyThread(Apply(h, w, step), p, c)
  {
    var v := Apply(h, w, step);
    PrivateTouches(h, w, step);
    if PairOf(w.requests[step.x]) == p { PrivateSaysOnly(h, w, step, p, c); }
    if p in NewCache(h, w, step) { PrivateCache(h, w, step, p, c); }
    hide Apply, Enabled, SortPair, SaysOnly, NewPhase, NewLocks, NewCache;
    assert forall d <- v.convs :: Thread(v, d, p) <==> Thread(w, d, p);
  }

  /** A request that creates a conversation is for another pair, so what it commits is no thread of p. */
  lemma CommittedThread(h: Pair -> int, w: World, x: nat, replied: bool, p: Pair, c: ConvId, d: ConvId)
    requires Enabled(h, w, Commit(x, replied)) && RequestOk(h, w, x) && StrLess(p.low, p.high)
    requires PairOf(w.requests[x]) == p ==> SaysOnly(w.requests[x].phase, c)
    ensures Thread(Apply(h, w, Commit(x, replied)), d, p) <==> Thread(w, d, p)
  {
    var r := w.requests[x];
    var q := PairOf(r);
    SortPairIsCanonical(r.requester, r.other);
    if q != p && {q.low, q.high} == {p.low, p.high} {
      SortedPairsByMembers(q, p);
    }
    hide SortPair, Unlock, HoldsLock, StrLess;
  }

  lemma CommittedNames(h: Pair -> int, w: World, x: nat, replied: bool, p: Pair, c: ConvId)
    requires Enabled(h, w, Commit(x, replied)) && OnlyThread(w, p, c)
    ensures var v := Apply(h, w, Commit(x, replied));
            && (forall d <- v.pairs :: v.pairs[d] == p ==> d == c)
            && v.cache == w.cache
            && (forall y <- v.requests :: PairOf(v.requests[y]) == p ==> SaysOnly(v.requests[y].phase, c))
  {
    assert PairOf(w.requests[x]) == p ==> SaysOnly(w.requests[x].phase, c);
    CommitTouches(h, w, x, replied);
    hide Apply, SortPair, Thread;
  }

  lemma CommitKeepsOnly(h: Pair -> int, w: World, x: nat, replied: bool, p: Pair, c: ConvId)
    requires TablesOk(h, w) && Enabled(h, w, Commit(x, replied)) && OnlyThread(w, p, c) && StrLess(p.low, p.high)
    ensures OnlyThread(Apply(h, w, Commit(x, replied)), p, c)
  {
    var v := Apply(h, w, Commit(x, replied));
    assert RequestOk(h, w, x);
    CommittedNames(h, w, x, replied, p, c);
    hide Apply, TablesOk, RequestOk, Enabled, SaysOnly;
    forall d ensures Thread(v, d, p) <==> Thread(w, d, p) { CommittedThread(h, w, x, replied, p, c, d); }
  }

  /** A new conversation of others is a group, and activity changes no member. */
  lemma TrafficThread(h: Pair -> int, w: World, step: Step, p: Pair, d: ConvId)
    requires Enabled(h, w, step) && IsTraffic(step)
    ensures Thread(Apply(h, w, step), d, p) <==> Thread(w, d, p)
  {}

  lemma TrafficKeepsOnly(h: Pair -> int, w: World, step: Step, p: Pair, c: ConvId)
    requires Enabled(h, w, step) && OnlyThread(w, p, c) && IsTraffic(step)
    ensures OnlyThread(Apply(h, w, step), p, c)
  {
    var v := Apply(h, w, step);
    forall d ensures Thread(v, d, p) <==> Thread(w, d, p) { TrafficThread(h, w, step, p, d); }
    TrafficTouches(h, w, step);
    hide Apply, Enabled, SortPair, Thread;
    assert Thread(v, c, p) && forall d <- v.convs :: Thread(v, d, p) ==> Thread(w, d, p);
    ThreadsExist(w, p);
  }

  lemma ThreadsExist(w: World, p: Pair)
    ensures forall d :: Thread(w, d, p) ==> d in w.convs
  {}

  lemma OnlyThreadKept(h: Pair -> int, w: World, step: Step, p: Pair, c: ConvId)
    requires TablesOk(h, w) && Enabled(h, w, step) && OnlyThread(w, p, c) && StrLess(p.low, p.high)
    ensures OnlyThread(Apply(h, w, step), p, c)
  {
    hide Apply, Enabled, TablesOk, OnlyThread;
    if IsPrivate(step) {
      PrivateKeepsOnly(h, w, step, p, c);
    } else if step.Commit? {
      CommitKeepsOnly(h, w, step.x, step.replied, p, c);
    } else {
      TrafficKeepsOnly(h, w, step, p, c);
    }
  }

  lemma {:induction false} OnlyThreadGoesOn(h: Pair -> int, v: World, steps: seq<Step>, p: Pair, c: ConvId)
    requires TablesOk(h, v) && OnlyThread(v, p, c) && StrLess(p.low, p.high) && Run(h, v, steps).Some?
    ensures TablesOk(h, Run(h, v, steps).value) && OnlyThread(Run(h, v, steps).value, p, c)
  {
    if steps == [] {
    } else {
      hide Apply, Enabled, TablesOk, OnlyThread;
      var n := |steps| - 1;
      OnlyThreadGoesOn(h, v, steps[..n], p, c);
      TablesKept(h, Run(h, v, steps[..n]).value, steps[n]);
      OnlyThreadKept(h, Run(h, v, steps[..n]).value, steps[n], p, c);
    }
  }

  /** Another thread that the pair's legacy lookup could find. */
  ghost predicate HasOther(w: World, a: User, b: User, c: ConvId) {
    exists d :: d != c && LegacyCandidate(w, d, a, b)
  }

  lemma FailureLeavesOnlyThread(h: Pair -> int, w: World, x: nat)
    requires Inv(h, w) && Enabled(h, w, CommitFails(x)) && w.requests[x].phase.adopted
    requires var r := w.requests[x]; !HasOther(w, r.requester, r.other, r.phase.c)
    ensures OnlyThread(Apply(h, w, CommitFails(x)), PairOf(w.requests[x]), w.requests[x].phase.c)
  {
    var r := w.requests[x];
    var p, c := PairOf(r), r.phase.c;
    var v := Apply(h, w, CommitFails(x));
    assert RequestOk(h, w, x);
    NoConflict(h, w, x);
    assert Settled(w, p, c) by { assert In(w, x, Cached(c, true)); }
    forall d <- v.convs ensures Thread(v, d, p) ==> d == c {
      CandidateIsThread(w, d, r.requester, r.other);
      assert Thread(v, d, p) <==> Thread(w, d, p);
    }
    if p in w.cache { SettledUnique(h, w, p, w.cache[p], c); }
    forall y <- v.requests | PairOf(v.requests[y]) == p ensures SaysOnly(v.requests[y].phase, c) {
      assert y != x ==> v.requests[y] == w.requests[y] && !HoldsLock(w.requests[y].phase);
      if y != x && Says(w.requests[y].phase) { SettledUnique(h, w, p, w.requests[y].phase.c, c); }
    }
  }

  lemma LostOnlyThreadAgrees(h: Pair -> int, w: World, x: nat)
    requires Inv(h, w) && Enabled(h, w, CommitFails(x)) && w.requests[x].phase.adopted
    requires var r := w.requests[x]; !HasOther(w, r.requester, r.other, r.phase.c)
    ensures AgreeForEver(h, Apply(h, w, CommitFails(x)), PairOf(w.requests[x]))
  {
    var r := w.requests[x];
    var v, p, c := Apply(h, w, CommitFails(x)), PairOf(r), r.phase.c;
    FailureLeavesOnlyThread(h, w, x);
    TablesKept(h, w, CommitFails(x));
    assert StrLess(p.low, p.high) by {
      assert RequestOk(h, w, x);
      SortPairIsCanonical(r.requester, r.other);
    }
    hide Apply, Enabled, Inv, TablesOk, OnlyThread, AgreeOn, CommitsHold, Run, SortPair;
    forall steps | CommitsHold(h, v, steps) && Run(h, v, steps).Some? ensures AgreeOn(Run(h, v, steps).value, p) {
      OnlyThreadGoesOn(h, v, steps, p, c);
      OnlyThreadAgrees(Run(h, v, steps).value, p, c);
    }
  }

  // ---- When a failed COMMIT is harmful -----------------------------------------------------------------

  predicate Fails(s: Step) { s.CommitFails? || s.Fail? || (s.Commit? && !s.replied) }

  /** Nothing goes wrong for any request. */
  predicate NoFailures(steps: seq<Step>) { forall s <- steps :: !Fails(s) }

  lemma NoFailuresHolds(h: Pair -> int, start: World, steps: seq<Step>)
    requires NoFailures(steps)
    ensures CommitsHold(h, start, steps)
  {
    hide Run;
    forall i | 0 <= i < |steps| && Run(h, start, steps[..i]).Some?
      ensures !LosesAdoption(Run(h, start, steps[..i]).value, steps[i])
    {
      assert steps[i] in steps;
    }
  }

  lemma StartsThere(h: Pair -> int, start: World)
    ensures Run(h, start, []) == Some(start) && NoFailures([])
  {}

  lemma Extend(h: Pair -> int, start: World, steps: seq<Step>, w: World, step: Step, v: World)
    returns (steps': seq<Step>)
    requires Run(h, start, steps) == Some(w) && Enabled(h, w, step) && Apply(h, w, step) == v
    ensures Run(h, start, steps') == Some(v)
    ensures NoFailures(steps) && !Fails(step) ==> NoFailures(steps')
  {
    steps' := steps + [step];
    assert steps'[..|steps|] == steps;
  }

  /** Request x, from a to b, in the given phase. */
  function Asking(w: World, x: nat, a: User, b: User, p: Phase): World {
    w.(requests := w.requests[x := Request(a, b, p)])
  }

  lemma AskingTwice(w: World, x: nat, a: User, b: User, p: Phase, q: Phase)
    ensures Asking(Asking(w, x, a, b, p), x, a, b, q) == Asking(w, x, a, b, q)
    ensures Goto(Asking(w, x, a, b, p), x, q) == Asking(w, x, a, b, q)
  {
    assert w.requests[x := Request(a, b, p)][x := Request(a, b, q)] == w.requests[x := Request(a, b, q)];
  }

  function Locking(w: World, k: int, x: nat): World { w.(locks := w.locks[k := x]) }

  /** A new request that misses the cache gets the free lock of its pair. */
  lemma LockRun(h: Pair -> int, start: World, steps: seq<Step>, w: World, x: nat, a: User, b: User)
    returns (steps': seq<Step>)
    requires a != b && Run(h, start, steps) == Some(w) && x !in w.requests && h(SortPair(a, b)) !in w.locks
    ensures Run(h, start, steps') == Some(Locking(Asking(w, x, a, b, Locked), h(SortPair(a, b)), x))
    ensures NoFailures(steps) ==> NoFailures(steps')
  {
    hide Run, SortPair, NoFailures;
    AskingTwice(w, x, a, b, Started, WantLock);
    AskingTwice(w, x, a, b, WantLock, Locked);
    steps' := Extend(h, start, steps, w, Begin(x, a, b), Asking(w, x, a, b, Started));
    steps' := Extend(h, start, steps', Asking(w, x, a, b, Started), CacheMiss(x), Asking(w, x, a, b, WantLock));
    steps' := Extend(h, start, steps', Asking(w, x, a, b, WantLock), TakeLock(x),
                     Locking(Asking(w, x, a, b, Locked), h(SortPair(a, b)), x));
  }

  /** The row of the thread that was found is written without conflict. */
  lemma FoundAdopts(h: Pair -> int, start: World, steps: seq<Step>, l: World, x: nat, a: User, b: User, c: ConvId)
    returns (steps': seq<Step>)
    requires Run(h, start, steps) == Some(Asking(l, x, a, b, Found(c))) && Vacant(l.pairs, SortPair(a, b))
    ensures Run(h, start, steps') == Some(Asking(l, x, a, b, Chosen(c, true)))
    ensures NoFailures(steps) ==> NoFailures(steps')
  {
    hide Run, SortPair, NoFailures;
    AskingTwice(l, x, a, b, Found(c), Chosen(c, true));
    steps' := Extend(h, start, steps, Asking(l, x, a, b, Found(c)), Adopt(x), Asking(l, x, a, b, Chosen(c, true)));
  }

  lemma BestIsFound(h: Pair -> int, start: World, steps: seq<Step>, l: World, x: nat, a: User, b: User, c: ConvId)
    returns (steps': seq<Step>)
    requires Run(h, start, steps) == Some(Asking(l, x, a, b, NoPair)) && BestLegacy(l, c, a, b)
    ensures Run(h, start, steps') == Some(Asking(l, x, a, b, Found(c)))
    ensures NoFailures(steps) ==> NoFailures(steps')
  {
    SameThreads(l, Asking(l, x, a, b, NoPair), c, a, b);
    hide Run, SortPair, NoFailures, BestLegacy;
    AskingTwice(l, x, a, b, NoPair, Found(c));
    steps' := Extend(h, start, steps, Asking(l, x, a, b, NoPair), FindLegacy(x, c), Asking(l, x, a, b, Found(c)));
  }

  lemma PairIsMissing(h: Pair -> int, start: World, steps: seq<Step>, l: World, x: nat, a: User, b: User)
    returns (steps': seq<Step>)
    requires Run(h, start, steps) == Some(Asking(l, x, a, b, Locked)) && Vacant(l.pairs, SortPair(a, b))
    ensures Run(h, start, steps') == Some(Asking(l, x, a, b, NoPair))
    ensures NoFailures(steps) ==> NoFailures(steps')
  {
    hide Run, SortPair, NoFailures, Vacant;
    AskingTwice(l, x, a, b, Locked, NoPair);
    steps' := Extend(h, start, steps, Asking(l, x, a, b, Locked), PairMissing(x), Asking(l, x, a, b, NoPair));
  }

  /** A request that misses the cache and adopts the best legacy thread c. */
  lemma AdoptRun(h: Pair -> int, start: World, steps: seq<Step>, w: World, x: nat, a: User, b: User, c: ConvId)
    returns (steps': seq<Step>)
    requires a != b && Run(h, start, steps) == Some(w) && x !in w.requests && h(SortPair(a, b)) !in w.locks
    requires Vacant(w.pairs, SortPair(a, b)) && BestLegacy(w, c, a, b)
    ensures Run(h, start, steps') == Some(Locking(Asking(w, x, a, b, Chosen(c, true)), h(SortPair(a, b)), x))
    ensures NoFailures(steps) ==> NoFailures(steps')
  {
    var l := Locking(w, h(SortPair(a, b)), x);
    SameThreads(w, l, c, a, b);
    hide Run, SortPair, NoFailures, BestLegacy, Vacant;
    steps' := LockRun(h, start, steps, w, x, a, b);
    steps' := PairIsMissing(h, start, steps', l, x, a, b);
    steps' := BestIsFound(h, start, steps', l, x, a, b, c);
    steps' := FoundAdopts(h, start, steps', l, x, a, b, c);
  }

  lemma SameThreads(w: World, v: World, c: ConvId, a: User, b: User)
    requires w.convs == v.convs && BestLegacy(w, c, a, b)
    ensures BestLegacy(v, c, a, b)
  {
    forall d <- v.convs ensures LegacyCandidate(v, d, a, b) <==> LegacyCandidate(w, d, a, b) {}
  }

  /** It goes on to COMMIT and answers c; its cache write fails. */
  lemma AdoptAndAnswer(h: Pair -> int, start: World, steps: seq<Step>, w: World, x: nat, a: User, b: User, c: ConvId)
    returns (steps': seq<Step>, v: World)
    requires a != b && Run(h, start, steps) == Some(w) && x !in w.requests && h(SortPair(a, b)) !in w.locks
    requires Vacant(w.pairs, SortPair(a, b)) && BestLegacy(w, c, a, b)
    ensures Run(h, start, steps') == Some(v) && (NoFailures(steps) ==> NoFailures(steps'))
    ensures v.requests == w.requests[x := Request(a, b, Answered(c, false))]
  {
    var l := Locking(w, h(SortPair(a, b)), x);
    steps' := AdoptRun(h, start, steps, w, x, a, b, c);
    hide Run, SortPair, NoFailures, Vacant, BestLegacy;
    AskingTwice(l, x, a, b, Chosen(c, true), Cached(c, true));
    steps' := Extend(h, start, steps', Asking(l, x, a, b, Chosen(c, true)), CacheWrite(x, false),
                     Asking(l, x, a, b, Cached(c, true)));
    steps', v := CommitRun(h, start, steps', l, x, a, b, Cached(c, true));
  }

  /** COMMIT answers, publishes what was written and gives the lock back. */
  lemma CommitRun(h: Pair -> int, start: World, steps: seq<Step>, l: World, x: nat, a: User, b: User, p: Phase)
    returns (steps': seq<Step>, v: World)
    requires Run(h, start, steps) == Some(Asking(l, x, a, b, p)) && (p.Cached? || p.Created?)
    ensures Run(h, start, steps') == Some(v) && (NoFailures(steps) ==> NoFailures(steps'))
    ensures v.requests == l.requests[x := Request(a, b, Answered(p.c, p.Created?))]
    ensures v.locks == l.locks - {h(SortPair(a, b))}
    ensures Publishes(p) ==> v.pairs == l.pairs[p.c := SortPair(a, b)]
    ensures v.convs == if p.Created? then l.convs[p.c := p.conv] else l.convs
  {
    var u := Asking(l, x, a, b, p);
    CommitTouches(h, u, x, true);
    CommitWrites(h, u, x, true);
    v := Apply(h, u, Commit(x, true));
    assert Enabled(h, u, Commit(x, true));
    hide Run, Apply, Enabled, SortPair, NoFailures;
    steps' := Extend(h, start, steps, u, Commit(x, true), v);
    assert l.requests[x := Request(a, b, p)][x := Request(a, b, Answered(p.c, p.Created?))]
        == l.requests[x := Request(a, b, Answered(p.c, p.Created?))];
  }

  /** Enough activity makes any thread of the pair the one that the legacy lookup picks. */
  lemma TouchMakesBest(h: Pair -> int, start: World, steps: seq<Step>, w: World, a: User, b: User, d: ConvId)
    returns (steps': seq<Step>, v: World)
    requires Run(h, start, steps) == Some(w) && LegacyCandidate(w, d, a, b)
    ensures Run(h, start, steps') == Some(v) && (NoFailures(steps) ==> NoFailures(steps'))
    ensures v == w.(convs := v.convs) && v.convs.Keys == w.convs.Keys && BestLegacy(v, d, a, b)
  {
    var ranks := set c | c in w.convs :: w.convs[c].rank;
    var rank := UpperBound(ranks);
    v := Apply(h, w, Touch(d, rank));
    hide Run, NoFailures;
    steps' := Extend(h, start, steps, w, Touch(d, rank), v);
    forall c <- v.convs | LegacyCandidate(v, c, a, b) && c != d ensures v.convs[c].rank < v.convs[d].rank {
      assert w.convs[c].rank in ranks;
    }
  }

  /** If c is only named, somebody goes on to answer it: a request that has read it, or a new one. */
  lemma NamedIsAnswered(h: Pair -> int, start: World, steps: seq<Step>, w: World, a: User, b: User, c: ConvId)
    returns (steps': seq<Step>, v: World, y: nat)
    requires a != b && Run(h, start, steps) == Some(w) && Named(w, SortPair(a, b), c) && c in w.convs
    ensures Run(h, start, steps') == Some(v) && (NoFailures(steps) ==> NoFailures(steps'))
    ensures v == w.(requests := v.requests) && HasAnswer(v, y, SortPair(a, b), c)
  {
    hide Run, SortPair, NoFailures;
    if z :| z in w.requests && HasRead(w, z, SortPair(a, b), c) {
      y := z;
      if HasAnswer(w, z, SortPair(a, b), c) {
        steps', v := steps, w;
      } else {
        v := Goto(w, z, Answered(c, false));
        steps' := Extend(h, start, steps, w, LoadFound(z), v);
      }
    } else {
      y := UpperBound(w.requests.Keys);
      AskingTwice(w, y, a, b, Started, Hit(c));
      AskingTwice(w, y, a, b, Hit(c), Answered(c, false));
      v := Asking(w, y, a, b, Answered(c, false));
      steps' := Extend(h, start, steps, w, Begin(y, a, b), Asking(w, y, a, b, Started));
      steps' := Extend(h, start, steps', Asking(w, y, a, b, Started), CacheGet(y), Asking(w, y, a, b, Hit(c)));
      steps' := Extend(h, start, steps', Asking(w, y, a, b, Hit(c)), LoadFound(y), v);
    }
  }

  /** With a second thread d, a pair that names c and has neither row nor lock can be split. */
  lemma SplitRun(h: Pair -> int, v: World, a: User, b: User, c: ConvId, d: ConvId) returns (steps: seq<Step>, u: World)
    requires a != b && c != d && LegacyCandidate(v, d, a, b) && c in v.convs
    requires Named(v, SortPair(a, b), c) && Vacant(v.pairs, SortPair(a, b)) && h(SortPair(a, b)) !in v.locks
    ensures Run(h, v, steps) == Some(u) && NoFailures(steps) && !AgreeOn(u, SortPair(a, b))
  {
    var p := SortPair(a, b);
    StartsThere(h, v);
    hide Run, SortPair, NoFailures, BestLegacy, LegacyCandidate, Vacant, AgreeOn;
    var v1, v2, y;
    steps, v1 := TouchMakesBest(h, v, [], v, a, b, d);
    assert Named(v1, p, c);
    steps, v2, y := NamedIsAnswered(h, v, steps, v1, a, b, c);
    SameThreads(v1, v2, d, a, b);
    var z := UpperBound(v2.requests.Keys);
    steps, u := AdoptAndAnswer(h, v, steps, v2, z, a, b, d);
    assert HasAnswer(u, y, p, c) && HasAnswer(u, z, p, d);
    TwoAnswers(u, p, y, z, c, d);
  }

  lemma TwoAnswers(u: World, p: Pair, y: nat, z: nat, c: ConvId, d: ConvId)
    requires HasAnswer(u, y, p, c) && HasAnswer(u, z, p, d) && c != d
    ensures !AgreeOn(u, p)
  {}

  lemma LostThreadSplits(h: Pair -> int, w: World, x: nat)
    requires Inv(h, w) && Enabled(h, w, CommitFails(x)) && w.requests[x].phase.adopted
    requires var r := w.requests[x]; Named(w, PairOf(r), r.phase.c) && HasOther(w, r.requester, r.other, r.phase.c)
    ensures !AgreeForEver(h, Apply(h, w, CommitFails(x)), PairOf(w.requests[x]))
  {
    var r := w.requests[x];
    var v := Apply(h, w, CommitFails(x));
    assert RequestOk(h, w, x);
    var d :| d != r.phase.c && LegacyCandidate(w, d, r.requester, r.other);
    FailureFreesPair(h, w, x);
    hide Apply, Inv, Enabled, RequestOk, SortPair, AgreeOn, CommitsHold, Run, Vacant;
    assert LegacyCandidate(v, d, r.requester, r.other);
    var steps, u := SplitRun(h, v, r.requester, r.other, r.phase.c, d);
    NoFailuresHolds(h, v, steps);
    assert !AgreeOn(Run(h, v, steps).value, PairOf(r));
  }

  /** The pair of a thread that is being adopted has no row, and the thread exists. */
  lemma AdoptedFacts(h: Pair -> int, w: World, x: nat, c: ConvId)
    requires TablesOk(h, w) && In(w, x, Cached(c, true))
    ensures Vacant(w.pairs, PairOf(w.requests[x])) && c in w.convs && w.requests[x].requester != w.requests[x].other
  {
    assert RequestOk(h, w, x);
    hide TablesOk, SortPair, Vacant;
  }

  lemma NamedAfterFailure(h: Pair -> int, w: World, x: nat, p: Pair, c: ConvId)
    requires Enabled(h, w, CommitFails(x)) && Named(w, p, c)
    ensures Named(Apply(h, w, CommitFails(x)), p, c)
  {
    FailureTouches(h, w, x);
    hide Apply, SortPair;
    if y :| y in w.requests && HasRead(w, y, p, c) { assert HasRead(Apply(h, w, CommitFails(x)), y, p, c); }
  }

  lemma FailureFreesPair(h: Pair -> int, w: World, x: nat)
    requires Inv(h, w) && Enabled(h, w, CommitFails(x)) && w.requests[x].phase.adopted
    ensures var r := w.requests[x];
            var v := Apply(h, w, CommitFails(x));
            && v.convs == w.convs && Vacant(v.pairs, PairOf(r)) && h(PairOf(r)) !in v.locks && r.phase.c in v.convs
            && r.requester != r.other
            && (Named(w, PairOf(r), r.phase.c) ==> Named(v, PairOf(r), r.phase.c))
  {
    var r := w.requests[x];
    AdoptedFacts(h, w, x, r.phase.c);
    FailureTouches(h, w, x);
    hide Apply, SortPair, TablesOk, CacheOk, AnswersOk, Vacant, Named;
    if Named(w, PairOf(r), r.phase.c) { NamedAfterFailure(h, w, x, PairOf(r), r.phase.c); }
  }

  /**
   * The one way to break agreement, exactly: after a COMMIT that fails behind its cache write, the answers for the
   * pair agree in every continuation if and only if no thread was being adopted, or nothing names that thread yet
   * (no cache entry, no answer, no request that has read it from the cache), or the pair has no other thread that
   * could be adopted.
   */
  lemma FailedCommitExactlyWhen(h: Pair -> int, w: World, x: nat)
    requires Inv(h, w) && Enabled(h, w, CommitFails(x))
    ensures var r := w.requests[x];
            AgreeForEver(h, Apply(h, w, CommitFails(x)), PairOf(r)) <==>
            || !r.phase.adopted
            || !Named(w, PairOf(r), r.phase.c)
            || !HasOther(w, r.requester, r.other, r.phase.c)
  {
    var r := w.requests[x];
    var v := Apply(h, w, CommitFails(x));
    TablesKept(h, w, CommitFails(x));
    if !r.phase.adopted {
      AnswersKept(h, w, CommitFails(x));
      InvAgreesForEver(h, v, PairOf(r));
    } else if !Named(w, PairOf(r), r.phase.c) {
      LostAdoption(h, w, x);
      InvAgreesForEver(h, v, PairOf(r));
    } else {
      hide Apply, Inv, Enabled, Named, HasOther, AgreeForEver, SortPair;
      if HasOther(w, r.requester, r.other, r.phase.c) {
        LostThreadSplits(h, w, x);
      } else {
        LostOnlyThreadAgrees(h, w, x);
      }
    }
  }

  // ---- The advisory locks ------------------------------------------------------------------------------

  /** Every lock belongs to a request inside its transaction. */
  ghost predicate LocksOk(h: Pair -> int, w: World) {
    forall k <- w.locks :: var x := w.locks[k];
      x in w.requests && HoldsLock(w.requests[x].phase) && h(PairOf(w.requests[x])) == k
  }

  lemma PrivateLocksExactly(h: Pair -> int, w: World, step: Step)
    requires Enabled(h, w, step) && IsPrivate(step)
    ensures var k := h(PairOf(w.requests[step.x]));
            var before, after := HoldsLock(w.requests[step.x].phase), HoldsLock(NewPhase(h, w, step));
            NewLocks(h, w, step) == if before == after then w.locks
                                    else if before then w.locks - {k} else w.locks[k := step.x]
  {
    hide SortPair, BestLegacy, LegacyCandidate, Vacant, Conflicts;
  }

  lemma LocksKept(h: Pair -> int, w: World, step: Step)
    requires LocksOk(h, w) && TablesOk(h, w) && Enabled(h, w, step)
    ensures LocksOk(h, Apply(h, w, step))
  {
    if IsPrivate(step) {
      PrivateTouches(h, w, step);
      PrivateLocksExactly(h, w, step);
      assert RequestOk(h, w, step.x);
      hide Apply, Enabled, TablesOk, RequestOk, NewPhase, NewLocks, NewCache, HoldsLock, SortPair;
    } else if step.Commit? {
      CommitTouches(h, w, step.x, step.replied);
      CommitWrites(h, w, step.x, step.replied);
      hide Apply, Enabled, TablesOk, SortPair;
    } else {
      TrafficTouches(h, w, step);
      assert step.Begin? ==> step.x !in w.requests;
      hide Apply, Enabled, TablesOk, HoldsLock, SortPair;
    }
  }

  lemma {:induction false} LocksGoOn(h: Pair -> int, start: World, steps: seq<Step>)
    requires TablesOk(h, start) && LocksOk(h, start) && Run(h, start, steps).Some?
    ensures TablesOk(h, Run(h, start, steps).value) && LocksOk(h, Run(h, start, steps).value)
  {
    if steps == [] {
    } else {
      hide Apply, Enabled, TablesOk, LocksOk;
      var n := |steps| - 1;
      LocksGoOn(h, start, steps[..n]);
      TablesKept(h, Run(h, start, steps[..n]).value, steps[n]);
      LocksKept(h, Run(h, start, steps[..n]).value, steps[n]);
    }
  }

  /** In every run, failed COMMITs included, a lock is held exactly while the transaction of one request holds it. */
  lemma LockIsHeldExactlyWhen(h: Pair -> int, start: World, steps: seq<Step>, k: int)
    requires Initial(start) && Run(h, start, steps).Some?
    ensures var w := Run(h, start, steps).value;
            && (k in w.locks <==> exists x :: x in w.requests && HoldsLock(w.requests[x].phase)
                                              && h(PairOf(w.requests[x])) == k)
            && (forall x, y :: x in w.requests && y in w.requests && HoldsLock(w.requests[x].phase) ==>
                  HoldsLock(w.requests[y].phase) ==>
                  h(PairOf(w.requests[x])) == h(PairOf(w.requests[y])) ==> x == y)
  {
    InitialInv(h, start);
    LocksGoOn(h, start, steps);
    var w := Run(h, start, steps).value;
    forall x | x in w.requests && HoldsLock(w.requests[x].phase)
      ensures h(PairOf(w.requests[x])) in w.locks && w.locks[h(PairOf(w.requests[x]))] == x
    {
      assert RequestOk(h, w, x);
    }
    hide Run, Initial, TablesOk, RequestOk, SortPair, HoldsLock;
  }

  // ---- Requests are answered ---------------------------------------------------------------------------

  /**
   * A COMMIT that takes effect leaves a conversation of exactly its two users with a committed row for the pair.  If it
   * is replied to, its request is answered with that one, and `created` is said if and only if it did not exist before;
   * if not, the request fails although the row is there.
   */
  lemma CommitIsAnswered(h: Pair -> int, start: World, steps: seq<Step>, x: nat, replied: bool)
    requires Initial(start) && CommitsHold(h, start, steps) && Run(h, start, steps).Some?
    requires Enabled(h, Run(h, start, steps).value, Commit(x, replied))
    ensures var w := Run(h, start, steps).value;
            var v := Apply(h, w, Commit(x, replied));
            && x in v.requests && x in w.requests && (w.requests[x].phase.Cached? || w.requests[x].phase.Created?)
            && var r := w.requests[x];
               var c := r.phase.c;
               && v.requests[x].phase == (if replied then Answered(c, c !in w.convs) else Failed)
               && c in v.pairs && v.pairs[c] == SortPair(r.requester, r.other)
               && c in v.convs && !v.convs[c].isGroup && v.convs[c].members == {r.requester, r.other}
  {
    EveryRunKeepsInv(h, start, steps);
    var w := Run(h, start, steps).value;
    CommitAnswers(h, w, x, replied);
  }

  lemma CommitAnswers(h: Pair -> int, w: World, x: nat, replied: bool)
    requires Inv(h, w) && Enabled(h, w, Commit(x, replied))
    ensures var v := Apply(h, w, Commit(x, replied));
            var r := w.requests[x];
            var c := r.phase.c;
            && x in v.requests && v.requests[x].phase == (if replied then Answered(c, c !in w.convs) else Failed)
            && c in v.pairs && v.pairs[c] == SortPair(r.requester, r.other)
            && c in v.convs && !v.convs[c].isGroup && v.convs[c].members == {r.requester, r.other}
  {
    var v := Apply(h, w, Commit(x, replied));
    var r := w.requests[x];
    assert RequestOk(h, w, x);
    assert r.phase.c in w.pairs ==> RowOk(w, r.phase.c);
    CommitTouches(h, w, x, replied);
    CommitWrites(h, w, x, replied);
    SortPairIsCanonical(r.requester, r.other);
    CommitKeepsRows(h, w, x, replied);
    assert r.phase.c in v.pairs ==> RowOk(v, r.phase.c);
    hide Apply, Enabled, Inv, SortPair, StrLess;
  }

  /**
   * The row's conversation, else the most active legacy thread, the newest of them if several are, else a new
   * conversation.
   */
  ghost predicate RightAnswer(w: World, a: User, b: User, c: ConvId, created: bool) {
    var p := SortPair(a, b);
    if exists d <- w.pairs :: w.pairs[d] == p then !created && c in w.pairs && w.pairs[c] == p
    else if exists d <- w.convs :: LegacyCandidate(w, d, a, b) then
      && !created && LegacyCandidate(w, c, a, b)
      && (forall d <- w.convs :: LegacyCandidate(w, d, a, b) ==>
            w.convs[d].rank < w.convs[c].rank || (w.convs[d].rank == w.convs[c].rank && d <= c))
    else created && c !in w.convs
  }

  /** Request x has been answered c, and nobody holds the lock of its pair. */
  ghost predicate AnsweredAndFree(h: Pair -> int, v: World, x: nat, a: User, b: User, c: ConvId, created: bool) {
    CallsFor(v, x, a, b, Answered(c, created)) && h(SortPair(a, b)) !in v.locks
    && (created ==> c in v.convs && v.convs[c].members == {a, b} && !v.convs[c].isGroup && c in v.pairs
                    && v.pairs[c] == SortPair(a, b))
  }

  lemma CommitEnds(h: Pair -> int, start: World, steps: seq<Step>, l: World, x: nat, a: User, b: User, p: Phase)
    returns (steps': seq<Step>, v: World)
    requires Run(h, start, steps) == Some(Asking(l, x, a, b, p)) && (p.Cached? || p.Created?)
    requires p.Created? ==> p.conv.members == {a, b} && !p.conv.isGroup
    ensures Run(h, start, steps') == Some(v) && (NoFailures(steps) ==> NoFailures(steps'))
    ensures AnsweredAndFree(h, v, x, a, b, p.c, p.Created?)
  {
    hide Run, SortPair, NoFailures;
    steps', v := CommitRun(h, start, steps, l, x, a, b, p);
  }

  lemma ChosenEnds(h: Pair -> int, start: World, steps: seq<Step>, l: World, x: nat, a: User, b: User, c: ConvId,
                   adopted: bool)
    returns (steps': seq<Step>, v: World)
    requires Run(h, start, steps) == Some(Asking(l, x, a, b, Chosen(c, adopted)))
    ensures Run(h, start, steps') == Some(v) && (NoFailures(steps) ==> NoFailures(steps'))
    ensures AnsweredAndFree(h, v, x, a, b, c, false)
  {
    hide Run, SortPair, NoFailures, AnsweredAndFree;
    AskingTwice(l, x, a, b, Chosen(c, adopted), Cached(c, adopted));
    steps' := Extend(h, start, steps, Asking(l, x, a, b, Chosen(c, adopted)), CacheWrite(x, false),
                     Asking(l, x, a, b, Cached(c, adopted)));
    steps', v := CommitEnds(h, start, steps', l, x, a, b, Cached(c, adopted));
  }

  lemma FoundEnds(h: Pair -> int, start: World, steps: seq<Step>, l: World, x: nat, a: User, b: User, c: ConvId)
    returns (steps': seq<Step>, v: World)
    requires Run(h, start, steps) == Some(Asking(l, x, a, b, Found(c))) && Vacant(l.pairs, SortPair(a, b))
    ensures Run(h, start, steps') == Some(v) && (NoFailures(steps) ==> NoFailures(steps'))
    ensures AnsweredAndFree(h, v, x, a, b, c, false)
  {
    hide Run, SortPair, NoFailures, AnsweredAndFree;
    steps' := FoundAdopts(h, start, steps, l, x, a, b, c);
    steps', v := ChosenEnds(h, start, steps', l, x, a, b, c, true);
  }

  lemma MustCreateEnds(h: Pair -> int, start: World, steps: seq<Step>, l: World, x: nat, a: User, b: User)
    returns (steps': seq<Step>, v: World, c: ConvId)
    requires Run(h, start, steps) == Some(Asking(l, x, a, b, MustCreate)) && Vacant(l.pairs, SortPair(a, b))
    ensures Run(h, start, steps') == Some(v) && (NoFailures(steps) ==> NoFailures(steps'))
    ensures AnsweredAndFree(h, v, x, a, b, c, true) && c !in l.convs
  {
    var u := Asking(l, x, a, b, MustCreate);
    var taken := set y | y in u.requests && u.requests[y].phase.Created? :: u.requests[y].phase.c;
    c := UpperBound(u.convs.Keys + taken);
    var p := Created(c, Conv(false, false, {a, b}, 0));
    CreateEnabled(h, u, x, c, taken);
    hide Run, SortPair, NoFailures, AnsweredAndFree;
    AskingTwice(l, x, a, b, MustCreate, p);
    steps' := Extend(h, start, steps, u, Create(x, c, false), Asking(l, x, a, b, p));
    steps', v := CommitEnds(h, start, steps', l, x, a, b, p);
  }

  lemma CreateEnabled(h: Pair -> int, u: World, x: nat, c: ConvId, taken: set<int>)
    requires In(u, x, MustCreate) && (forall d <- u.convs.Keys + taken :: d < c)
    requires forall y <- u.requests :: u.requests[y].phase.Created? ==> u.requests[y].phase.c in taken
    ensures Enabled(h, u, Create(x, c, false)) && c !in u.convs
  {
    forall d | d in u.convs || d in taken ensures d < c { assert d in u.convs.Keys + taken; }
  }

  /** Among finitely many candidates one is the best. */
  lemma {:induction false} BestExists(w: World, cs: set<ConvId>) returns (c: ConvId)
    requires cs != {} && cs <= w.convs.Keys
    ensures c in cs
    ensures forall d <- cs ::
      w.convs[d].rank < w.convs[c].rank || (w.convs[d].rank == w.convs[c].rank && d <= c)
    decreases cs
  {
    c :| c in cs;
    if cs != {c} {
      var e := BestExists(w, cs - {c});
      assert cs == (cs - {c}) + {c};
      if w.convs[c].rank < w.convs[e].rank || (w.convs[c].rank == w.convs[e].rank && c <= e) { c := e; }
    }
  }

  /** Without a row: the best legacy thread is adopted, or a conversation is created. */
  lemma NoPairEnds(h: Pair -> int, start: World, steps: seq<Step>, l: World, x: nat, a: User, b: User)
    returns (steps': seq<Step>, v: World, c: ConvId, created: bool)
    requires Run(h, start, steps) == Some(Asking(l, x, a, b, NoPair)) && Vacant(l.pairs, SortPair(a, b))
    ensures Run(h, start, steps') == Some(v) && (NoFailures(steps) ==> NoFailures(steps'))
    ensures AnsweredAndFree(h, v, x, a, b, c, created) && RightAnswer(l, a, b, c, created)
  {
    var u := Asking(l, x, a, b, NoPair);
    var cs := set d | d in l.convs && LegacyCandidate(l, d, a, b);
    created := cs == {};
    if created {
      NoneIsLeft(h, l, u, x, a, b, cs);
      hide Run, SortPair, NoFailures, AnsweredAndFree, LegacyCandidate, Vacant;
      AskingTwice(l, x, a, b, NoPair, MustCreate);
      steps' := Extend(h, start, steps, u, NoLegacy(x), Asking(l, x, a, b, MustCreate));
      steps', v, c := MustCreateEnds(h, start, steps', l, x, a, b);
      hide RightAnswer;
      CreatedIsRight(l, a, b, c, cs);
    } else {
      c := BestExists(l, cs);
      assert BestLegacy(l, c, a, b);
      BestIsRight(l, a, b, c);
      hide Run, SortPair, NoFailures, AnsweredAndFree, LegacyCandidate, BestLegacy, Vacant, RightAnswer;
      steps' := BestIsFound(h, start, steps, l, x, a, b, c);
      steps', v := FoundEnds(h, start, steps', l, x, a, b, c);
    }
  }

  lemma NoneIsLeft(h: Pair -> int, l: World, u: World, x: nat, a: User, b: User, cs: set<ConvId>)
    requires u == Asking(l, x, a, b, NoPair) && cs == {}
    requires cs == set d | d in l.convs && LegacyCandidate(l, d, a, b)
    ensures Enabled(h, u, NoLegacy(x))
  {
    forall d <- u.convs ensures !LegacyCandidate(u, d, a, b) {
      assert d !in cs;
    }
  }

  lemma CreatedIsRight(l: World, a: User, b: User, c: ConvId, cs: set<ConvId>)
    requires Vacant(l.pairs, SortPair(a, b)) && c !in l.convs && cs == {}
    requires cs == set d | d in l.convs && LegacyCandidate(l, d, a, b)
    ensures RightAnswer(l, a, b, c, true)
  {
    assert forall d <- l.convs :: LegacyCandidate(l, d, a, b) ==> d in cs;
    hide SortPair, LegacyCandidate;
  }

  lemma BestIsRight(l: World, a: User, b: User, c: ConvId)
    requires Vacant(l.pairs, SortPair(a, b)) && BestLegacy(l, c, a, b)
    ensures RightAnswer(l, a, b, c, false)
  {
    hide SortPair;
  }

  /** From the moment it has the lock. */
  lemma LockedEnds(h: Pair -> int, start: World, steps: seq<Step>, l: World, x: nat, a: User, b: User)
    returns (steps': seq<Step>, v: World, c: ConvId, created: bool)
    requires Run(h, start, steps) == Some(Asking(l, x, a, b, Locked))
    ensures Run(h, start, steps') == Some(v) && (NoFailures(steps) ==> NoFailures(steps'))
    ensures AnsweredAndFree(h, v, x, a, b, c, created) && RightAnswer(l, a, b, c, created)
  {
    hide Run, SortPair, NoFailures, AnsweredAndFree;
    var u := Asking(l, x, a, b, Locked);
    if d :| d in l.pairs && l.pairs[d] == SortPair(a, b) {
      c, created := d, false;
      AskingTwice(l, x, a, b, Locked, Chosen(c, false));
      steps' := Extend(h, start, steps, u, PairFound(x, c), Asking(l, x, a, b, Chosen(c, false)));
      steps', v := ChosenEnds(h, start, steps', l, x, a, b, c, false);
    } else {
      assert Vacant(l.pairs, SortPair(a, b));
      hide RightAnswer, Vacant;
      steps' := PairIsMissing(h, start, steps, l, x, a, b);
      steps', v, c, created := NoPairEnds(h, start, steps', l, x, a, b);
    }
  }

  /**
   * Whenever the lock of a pair is free, a new request of either user can be answered without any failure: with the
   * conversation of the pair's row, else with its most active legacy thread, else with a new conversation, whose row
   * is committed by then.
   */
  lemma NewRequestIsAnswered(h: Pair -> int, w: World, a: User, b: User)
    returns (steps: seq<Step>, v: World, x: nat, c: ConvId, created: bool)
    requires a != b && h(SortPair(a, b)) !in w.locks
    ensures x !in w.requests && Run(h, w, steps) == Some(v) && NoFailures(steps)
    ensures AnsweredAndFree(h, v, x, a, b, c, created) && RightAnswer(w, a, b, c, created)
  {
    StartsThere(h, w);
    hide Run, SortPair, NoFailures, AnsweredAndFree;
    x := UpperBound(w.requests.Keys);
    steps := LockRun(h, w, [], w, x, a, b);
    var l := Locking(w, h(SortPair(a, b)), x);
    steps, v, c, created := LockedEnds(h, w, steps, l, x, a, b);
    hide Locking;
    SameAnswer(w, l, a, b, c, created);
  }

  lemma SameAnswer(w: World, l: World, a: User, b: User, c: ConvId, created: bool)
    requires w.pairs == l.pairs && w.convs == l.convs && RightAnswer(l, a, b, c, created)
    ensures RightAnswer(w, a, b, c, created)
  {
    hide SortPair;
    assert forall d :: LegacyCandidate(w, d, a, b) <==> LegacyCandidate(l, d, a, b);
    hide LegacyCandidate;
  }

  /** Whoever holds a lock can finish: some continuation without failures answers it and frees the lock. */
  lemma HolderIsAnswered(h: Pair -> int, w: World, x: nat)
    returns (steps: seq<Step>, v: World, c: ConvId, created: bool)
    requires Inv(h, w) && x in w.requests && HoldsLock(w.requests[x].phase)
    ensures Run(h, w, steps) == Some(v) && NoFailures(steps)
    ensures var r := w.requests[x]; AnsweredAndFree(h, v, x, r.requester, r.other, c, created)
  {
    var r := w.requests[x];
    var a, b := r.requester, r.other;
    StartsThere(h, w);
    HolderFacts(h, w, x);
    assert w.requests[x := r] == w.requests;
    assert Asking(w, x, a, b, r.phase) == w;
    hide Run, SortPair, NoFailures, AnsweredAndFree, Inv, RightAnswer;
    match r.phase
    case Locked => steps, v, c, created := LockedEnds(h, w, [], w, x, a, b);
    case NoPair => steps, v, c, created := NoPairEnds(h, w, [], w, x, a, b);
    case Found(d) =>
      steps, v := FoundEnds(h, w, [], w, x, a, b, d);
      c, created := d, false;
    case Chosen(d, adopted) =>
      steps, v := ChosenEnds(h, w, [], w, x, a, b, d, adopted);
      c, created := d, false;
    case MustCreate =>
      steps, v, c := MustCreateEnds(h, w, [], w, x, a, b);
      created := true;
    case Cached(d, _) =>
      steps, v := CommitEnds(h, w, [], w, x, a, b, r.phase);
      c, created := d, false;
    case Created(d, _) =>
      steps, v := CommitEnds(h, w, [], w, x, a, b, r.phase);
      c, created := d, true;
  }

  lemma HolderFacts(h: Pair -> int, w: World, x: nat)
    requires Inv(h, w) && x in w.requests && HoldsLock(w.requests[x].phase)
    ensures var r := w.requests[x];
            && (NeedsVacancy(r.phase) ==> Vacant(w.pairs, SortPair(r.requester, r.other)))
            && (r.phase.Created? ==> r.phase.conv.members == {r.requester, r.other} && !r.phase.conv.isGroup)
  {
    assert RequestOk(h, w, x);
    SortPairIsCanonical(w.requests[x].requester, w.requests[x].other);
    hide Inv, SortPair, Vacant, StrLess;
  }

  // ---- A concrete split --------------------------------------------------------------------------------

  /** Two legacy threads of one pair, no pair row yet. */
  function TwoLegacyThreads(a: User, b: User): World {
    World(map[0 := Conv(false, false, {a, b}, 2), 1 := Conv(false, false, {a, b}, 1)], map[], map[], map[], map[])
  }

  /** The first thread is being adopted; it is in the cache, and COMMIT is next. */
  lemma CachedAdoption(h: Pair -> int, a: User, b: User) returns (steps: seq<Step>, w: World)
    requires a != b
    ensures Run(h, TwoLegacyThreads(a, b), steps) == Some(w) && NoFailures(steps)
    ensures CallsFor(w, 0, a, b, Cached(0, true)) && Named(w, SortPair(a, b), 0) && HasOther(w, a, b, 0)
  {
    var start := TwoLegacyThreads(a, b);
    var k, p := h(SortPair(a, b)), SortPair(a, b);
    StartsThere(h, start);
    assert BestLegacy(start, 0, a, b);
    hide Run, SortPair, NoFailures, BestLegacy;
    steps := AdoptRun(h, start, [], start, 0, a, b, 0);
    var l := Locking(start, k, 0);
    AskingTwice(l, 0, a, b, Chosen(0, true), Cached(0, true));
    w := Asking(l, 0, a, b, Cached(0, true)).(cache := map[p := 0]);
    steps := Extend(h, start, steps, Asking(l, 0, a, b, Chosen(0, true)), CacheWrite(0, true), w);
    assert LegacyCandidate(w, 1, a, b);
  }

  predicate CallsFor(w: World, x: nat, a: User, b: User, p: Phase) {
    x in w.requests && w.requests[x] == Request(a, b, p)
  }

  /** With a failed COMMIT of an adoption, two users of one pair can be answered different conversations. */
  lemma FailedCommitSplitsAnswers(h: Pair -> int, a: User, b: User)
    returns (before: seq<Step>, w: World, steps: seq<Step>, u: World)
    requires a != b
    ensures Initial(TwoLegacyThreads(a, b)) && Run(h, TwoLegacyThreads(a, b), before) == Some(w)
    ensures Enabled(h, w, CommitFails(0)) && Run(h, Apply(h, w, CommitFails(0)), steps) == Some(u)
    ensures NoFailures(before) && NoFailures(steps) && !AgreeOn(u, SortPair(a, b))
  {
    var start := TwoLegacyThreads(a, b);
    before, w := CachedAdoption(h, a, b);
    NoFailuresHolds(h, start, before);
    EveryRunKeepsInv(h, start, before);
    FailureFreesPair(h, w, 0);
    var v := Apply(h, w, CommitFails(0));
    var d :| d != 0 && LegacyCandidate(w, d, a, b);
    hide Run, Apply, Enabled, Inv, CommitsHold, NoFailures, AgreeOn, SortPair, Vacant, TwoLegacyThreads;
    assert LegacyCandidate(v, d, a, b);
    steps, u := SplitRun(h, v, a, b, 0, d);
  }
}
