/** The admission, deduplication and cooldown state machine of
    src/player_cache.rs.

    The shared state is a status table (identity -> CalcStatus), the result
    store (identity -> result and completion time), the counter of issued
    sequence numbers (`last_queue`), the sequence number of the job a worker
    most recently picked up (`current_queue`) and the job channel, a FIFO of
    identities. Locks, threads and the channel's blocking are not modelled:
    each operation is one atomic step, and one iteration of a worker's loop
    is two steps, StartJob (dequeue, then evict or mark Calculating) and
    FinishJob (record the calculator's outcome), between which the external
    calculation runs. Time is a caller-supplied timestamp in seconds. */
module PlayerCache {
  import opened Wrappers
  import ProfileCache

  type Entry<R> = ProfileCache.Entry<R>

  /** A pending job whose last ping is more than this many seconds old when
      a worker dequeues it is abandoned. */
  const StaleAfter: nat := 15

  /** Minimum age, in seconds, of a cached result before a forced
      recalculation is accepted. */
  const Cooldown: nat := 15 * 60

  datatype CalcStatus =
    | Pending(position: nat, lastPing: nat)
    | Calculating
    | Done
    | Error

  datatype EnqueueResult = AlreadyDone | Enqueued | CantForce(remaining: nat)

  /** What the external calculator returned for one job. */
  datatype Outcome<R> = Computed(perf: R) | Failed

  /** The whole shared state, as one value. */
  datatype CacheState<R> = CacheState(
    calcStatus: map<string, CalcStatus>,
    data: map<string, Entry<R>>,
    lastQueue: nat,
    currentQueue: nat,
    jobs: seq<string>)

  /** The state right after construction, given the result map it starts with. */
  function Initial<R>(data: map<string, Entry<R>>): (s: CacheState<R>)
    ensures Inv(s) && s.jobs == [] && s.calcStatus == map[] && s.data == data
  {
    CacheState(map[], data, 0, 0, [])
  }

  // ---------------------------------------------------------------------------
  // The queue invariant

  /** True when `p` is known and Pending; then PositionOf(s, p) is its
      sequence number. */
  predicate IsPending<R>(s: CacheState<R>, p: string) {
    p in s.calcStatus && s.calcStatus[p].Pending?
  }

  function PositionOf<R>(s: CacheState<R>, p: string): nat
    requires IsPending(s, p)
  {
    s.calcStatus[p].position
  }

  /** Every queued identity is Pending, exactly the Pending identities are
      queued, sequence numbers strictly increase along the queue and lie
      between the worker's current position and the last number issued. */
  ghost predicate Inv<R>(s: CacheState<R>) {
    && (forall i :: 0 <= i < |s.jobs| ==> IsPending(s, s.jobs[i]))
    && (forall i :: 0 <= i < |s.jobs| ==>
          s.currentQueue < PositionOf(s, s.jobs[i]) <= s.lastQueue)
    && (forall i, j :: 0 <= i < j < |s.jobs| ==>
          PositionOf(s, s.jobs[i]) < PositionOf(s, s.jobs[j]))
    && (forall p :: IsPending(s, p) ==> p in s.jobs)
    && s.currentQueue <= s.lastQueue
  }

  // ---------------------------------------------------------------------------
  // calculate_request

  /** The cooldown check, where `now < completedAt` is the clock having moved
      backwards: `SystemTime::elapsed` then fails and the request is let
      through as if the cooldown were over. */
  predicate CooldownOver(completedAt: nat, now: nat) {
    now < completedAt || now - completedAt >= Cooldown
  }

  /** Whether a new job may be queued for `p`: never over Pending or
      Calculating; over Done only when forcing. */
  predicate MayEnqueue(calcStatus: map<string, CalcStatus>, p: string, forcing: bool) {
    p !in calcStatus || calcStatus[p] == Error || (forcing && calcStatus[p] == Done)
  }

  /** The enqueue step: issue the next sequence number, mark `p` Pending with
      a fresh ping, and send `p` down the channel. */
  function Enqueue<R>(s: CacheState<R>, p: string, now: nat): (s': CacheState<R>)
    ensures s'.lastQueue == s.lastQueue + 1
    ensures s'.jobs == s.jobs + [p]
    ensures s'.calcStatus == s.calcStatus[p := Pending(s'.lastQueue, now)]
    ensures s'.data == s.data && s'.currentQueue == s.currentQueue
  {
    var n := s.lastQueue + 1;
    s.(lastQueue := n, calcStatus := s.calcStatus[p := Pending(n, now)], jobs := s.jobs + [p])
  }

  function RequestResult<R>(s: CacheState<R>, p: string, force: bool, now: nat): (r: EnqueueResult)
    ensures r.CantForce? ==> 0 < r.remaining <= Cooldown
  {
    if p in s.data then
      if !force then AlreadyDone
      else if !CooldownOver(s.data[p].completedAt, now) then
        CantForce(Cooldown - (now - s.data[p].completedAt))
      else Enqueued
    else Enqueued
  }

  function RequestNext<R>(s: CacheState<R>, p: string, force: bool, now: nat): (s': CacheState<R>)
  {
    if p in s.data then
      if !force || !CooldownOver(s.data[p].completedAt, now) then s
      else if MayEnqueue(s.calcStatus, p, true) then Enqueue(s, p, now)
      else s
    else if MayEnqueue(s.calcStatus, p, false) then Enqueue(s, p, now)
    else s
  }

  // ---------------------------------------------------------------------------
  // ping

  function PingNext<R>(s: CacheState<R>, p: string, now: nat): (s': CacheState<R>)
  {
    if IsPending(s, p) then s.(calcStatus := s.calcStatus[p := Pending(PositionOf(s, p), now)])
    else s
  }

  // ---------------------------------------------------------------------------
  // One iteration of the worker loop

  /** `Instant::elapsed` saturates at zero, so a ping stamped after `now`
      is never stale. */
  predicate Stale(lastPing: nat, now: nat) {
    now > lastPing + StaleAfter
  }

  /** The identity a worker goes on to calculate after dequeuing, or None
      when the queue is empty or the dequeued job was abandoned. Indexing the
      status table with the dequeued identity panics in the source when the
      key is missing; the requires rules that out and Inv implies it. */
  function StartResult<R>(s: CacheState<R>, now: nat): (job: Option<string>)
    requires s.jobs != [] ==> s.jobs[0] in s.calcStatus
    ensures job.Some? ==> s.jobs != [] && job.value == s.jobs[0]
  {
    if s.jobs == [] then None
    else
      match s.calcStatus[s.jobs[0]]
      case Pending(_, lastPing) => if Stale(lastPing, now) then None else Some(s.jobs[0])
      case _ => Some(s.jobs[0])
  }

  function StartNext<R>(s: CacheState<R>, now: nat): (s': CacheState<R>)
    requires s.jobs != [] ==> s.jobs[0] in s.calcStatus
  {
    if s.jobs == [] then s
    else
      var p := s.jobs[0];
      var rest := s.(jobs := s.jobs[1..]);
      match s.calcStatus[p]
      case Pending(current, lastPing) =>
        if Stale(lastPing, now) then rest.(calcStatus := s.calcStatus[p := Error])
        else rest.(currentQueue := current, calcStatus := s.calcStatus[p := Calculating])
      case _ => rest.(calcStatus := s.calcStatus[p := Calculating])
  }

  /** The worker records the calculator's outcome for `p`. */
  function FinishNext<R>(s: CacheState<R>, p: string, outcome: Outcome<R>, now: nat): (s': CacheState<R>)
  {
    match outcome
    case Computed(perf) =>
      s.(calcStatus := s.calcStatus[p := Done], data := s.data[p := ProfileCache.Entry(perf, now)])
    case Failed => s.(calcStatus := s.calcStatus[p := Error])
  }

  // ---------------------------------------------------------------------------
  // The object

  class Cache<R> {
    var calcStatus: map<string, CalcStatus>
    var data: map<string, Entry<R>>
    var lastQueue: nat
    var currentQueue: nat
    var jobs: seq<string>

    function Model(): CacheState<R>
      reads this
    {
      CacheState(calcStatus, data, lastQueue, currentQueue, jobs)
    }

    ghost predicate Valid()
      reads this
    {
      Inv(Model())
    }

    /** `PlayerCache::new`: empty status table and queue, counters at zero,
        and the result store loaded from the results file when that works. */
    constructor (resultsFile: Option<string>, loaded: Option<map<string, Entry<R>>>)
      ensures Valid()
      ensures Model() == Initial(ProfileCache.InitialData(resultsFile, loaded))
    {
      calcStatus := map[];
      data := ProfileCache.InitialData(resultsFile, loaded);
      lastQueue := 0;
      currentQueue := 0;
      jobs := [];
    }

    /** The enqueue sub-procedure of calculate_request. */
    method SendJob(player: string, now: nat)
      modifies this
      ensures Model() == Enqueue(old(Model()), player, now)
    {
      lastQueue := lastQueue + 1;
      calcStatus := calcStatus[player := Pending(lastQueue, now)];
      jobs := jobs + [player];
    }

    method CalculateRequest(player: string, force: bool, now: nat) returns (r: EnqueueResult)
      requires Valid()
      modifies this
      ensures Valid()
      ensures r == RequestResult(old(Model()), player, force, now)
      ensures Model() == RequestNext(old(Model()), player, force, now)
    {
      RequestPreservesInv(Model(), player, force, now);
      if player in data {
        if !force {
          r := AlreadyDone;
        } else {
          var lastUpdated := data[player].completedAt;
          if now >= lastUpdated && now - lastUpdated < Cooldown {
            r := CantForce(Cooldown - (now - lastUpdated));
          } else {
            if player !in calcStatus || calcStatus[player] == Error || calcStatus[player] == Done {
              SendJob(player, now);
            }
            r := Enqueued;
          }
        }
      } else {
        if player !in calcStatus || calcStatus[player] == Error {
          SendJob(player, now);
        }
        r := Enqueued;
      }
    }

    method CheckStatus(player: string) returns (r: Option<CalcStatus>)
      ensures r.None? <==> player !in calcStatus
      ensures r.Some? ==> r.value == calcStatus[player]
    {
      if player in calcStatus {
        r := Some(calcStatus[player]);
      } else {
        r := None;
      }
    }

    method Ping(player: string, now: nat)
      requires Valid()
      modifies this
      ensures Valid()
      ensures Model() == PingNext(old(Model()), player, now)
    {
      PingPreservesInv(Model(), player, now);
      if player in calcStatus {
        match calcStatus[player] {
          case Pending(pos, _) =>
            calcStatus := calcStatus[player := Pending(pos, now)];
          case _ =>
        }
      }
    }

    /** The position the worker reached, which never runs past the last
        sequence number issued. */
    method GetCurrentInQueue() returns (n: nat)
      requires Valid()
      ensures n == currentQueue && n <= lastQueue
    {
      n := currentQueue;
    }

    method GetPerformance(player: string) returns (r: Option<R>)
      ensures r.None? <==> player !in data
      ensures r.Some? ==> r.value == data[player].result
    {
      if player in data {
        r := Some(data[player].result);
      } else {
        r := None;
      }
    }

    /** The first half of a worker iteration: receive a job, evict it when
        its requester stopped pinging, otherwise record its position and mark
        it Calculating. Returns the identity to hand to the calculator. */
    method StartJob(now: nat) returns (job: Option<string>)
      requires Valid()
      modifies this
      ensures Valid()
      ensures job == StartResult(old(Model()), now)
      ensures Model() == StartNext(old(Model()), now)
    {
      StartPreservesInv(Model(), now);
      if jobs == [] {
        job := None;
        return;
      }
      var player := jobs[0];
      jobs := jobs[1..];
      match calcStatus[player] {
        case Pending(current, lastPing) =>
          if now > lastPing + StaleAfter {
            calcStatus := calcStatus[player := Error];
            job := None;
            return;
          }
          currentQueue := current;
        case _ =>
      }
      calcStatus := calcStatus[player := Calculating];
      job := Some(player);
    }

    /** The second half of a worker iteration: store the result and mark the
        job Done, or mark it Error and leave the store alone. */
    method FinishJob(player: string, outcome: Outcome<R>, now: nat)
      requires Valid()
      requires player in calcStatus && calcStatus[player] == Calculating
      modifies this
      ensures Valid()
      ensures Model() == FinishNext(old(Model()), player, outcome, now)
    {
      FinishPreservesInv(Model(), player, outcome, now);
      match outcome
      case Computed(perf) =>
        calcStatus := calcStatus[player := Done];
        data := data[player := ProfileCache.Entry(perf, now)];
      case Failed =>
        calcStatus := calcStatus[player := Error];
    }
  }

  // ---------------------------------------------------------------------------
  // Properties of calculate_request

  /** No cached result: always Enqueued; a job is sent only when the status is
      absent or Error, and then the counter, the status and the queue change
      together; otherwise nothing changes. */
  lemma RequestWithoutResult<R>(s: CacheState<R>, p: string, force: bool, now: nat)
    requires p !in s.data
    ensures RequestResult(s, p, force, now) == Enqueued
    ensures var s' := RequestNext(s, p, force, now);
      if p !in s.calcStatus || s.calcStatus[p] == Error then
        && s'.lastQueue == s.lastQueue + 1
        && s'.calcStatus == s.calcStatus[p := Pending(s'.lastQueue, now)]
        && s'.jobs == s.jobs + [p]
        && s'.data == s.data && s'.currentQueue == s.currentQueue
      else s' == s
  {
  }

  /** A cached result without force: AlreadyDone, nothing changes. */
  lemma RequestCachedNotForced<R>(s: CacheState<R>, p: string, now: nat)
    requires p in s.data
    ensures RequestResult(s, p, false, now) == AlreadyDone
    ensures RequestNext(s, p, false, now) == s
  {
  }

  /** A forced request inside the cooldown: CantForce with the time left,
      which is positive and at most the cooldown; nothing changes. */
  lemma RequestForcedTooSoon<R>(s: CacheState<R>, p: string, now: nat)
    requires p in s.data
    requires s.data[p].completedAt <= now < s.data[p].completedAt + Cooldown
    ensures var r := RequestResult(s, p, true, now);
      && r == CantForce(Cooldown - (now - s.data[p].completedAt))
      && 0 < r.remaining <= Cooldown
    ensures RequestNext(s, p, true, now) == s
  {
  }

  /** A forced request once the cooldown is over, or when the clock went
      backwards: Enqueued, and a job is sent exactly when the status is
      absent, Error or Done. */
  lemma RequestForcedAfterCooldown<R>(s: CacheState<R>, p: string, now: nat)
    requires p in s.data
    requires now < s.data[p].completedAt || now >= s.data[p].completedAt + Cooldown
    ensures RequestResult(s, p, true, now) == Enqueued
    ensures var s' := RequestNext(s, p, true, now);
      if p !in s.calcStatus || s.calcStatus[p] in {Error, Done} then s' == Enqueue(s, p, now)
      else s' == s
  {
  }

  /** A request never disturbs a job that is queued or being calculated. */
  lemma RequestSparesInFlight<R>(s: CacheState<R>, p: string, force: bool, now: nat)
    requires p in s.calcStatus && (s.calcStatus[p].Pending? || s.calcStatus[p].Calculating?)
    ensures RequestNext(s, p, force, now) == s
  {
  }

  /** Only the requested identity's status can change; the result store and
      the worker position never do; the queue only grows at its tail, by at
      most one job, and the counter grows by exactly the number of jobs sent. */
  lemma RequestFrame<R>(s: CacheState<R>, p: string, force: bool, now: nat)
    ensures var s' := RequestNext(s, p, force, now);
      && s'.data == s.data && s'.currentQueue == s.currentQueue
      && s.calcStatus.Keys <= s'.calcStatus.Keys
      && (forall q :: q != p ==> Lookup(s'.calcStatus, q) == Lookup(s.calcStatus, q))
      && s.lastQueue <= s'.lastQueue <= s.lastQueue + 1
      && |s'.jobs| == |s.jobs| + (s'.lastQueue - s.lastQueue)
      && s'.jobs[..|s.jobs|] == s.jobs
      && (s'.jobs != s.jobs ==> s'.jobs[|s.jobs|] == p)
  {
  }

  /** Asking again without force changes nothing: two requests in a row for
      the same identity send at most one job. */
  lemma RequestTwiceSendsOnce<R>(s: CacheState<R>, p: string, t1: nat, t2: nat)
    ensures var s1 := RequestNext(s, p, false, t1);
      RequestNext(s1, p, false, t2) == s1
  {
  }

  /** With no cached result, a request always leaves the identity with a
      status: it is never reported as unknown afterwards. */
  lemma RequestLeavesStatus<R>(s: CacheState<R>, p: string, force: bool, now: nat)
    requires p !in s.data
    ensures p in RequestNext(s, p, force, now).calcStatus
  {
  }

  lemma RequestPreservesInv<R>(s: CacheState<R>, p: string, force: bool, now: nat)
    requires Inv(s)
    ensures Inv(RequestNext(s, p, force, now))
  {
    var s' := RequestNext(s, p, force, now);
    if s' != s {
      assert s' == Enqueue(s, p, now);
      assert !IsPending(s, p);
      forall i | 0 <= i < |s'.jobs|
        ensures IsPending(s', s'.jobs[i])
        ensures s'.currentQueue < PositionOf(s', s'.jobs[i]) <= s'.lastQueue
      {
        if i < |s.jobs| {
          assert s'.jobs[i] == s.jobs[i] && s.jobs[i] != p;
        }
      }
    }
  }

  // ---------------------------------------------------------------------------
  // Properties of ping and check_status

  /** ping refreshes the ping time of a Pending entry and keeps its position;
      it changes nothing else. */
  lemma PingRefreshes<R>(s: CacheState<R>, p: string, now: nat)
    ensures var s' := PingNext(s, p, now);
      && s'.data == s.data && s'.jobs == s.jobs
      && s'.lastQueue == s.lastQueue && s'.currentQueue == s.currentQueue
      && s'.calcStatus.Keys == s.calcStatus.Keys
      && (forall q :: q != p ==> Lookup(s'.calcStatus, q) == Lookup(s.calcStatus, q))
      && (IsPending(s, p) ==> s'.calcStatus[p] == Pending(PositionOf(s, p), now))
      && (!IsPending(s, p) ==> s' == s)
  {
  }

  lemma PingPreservesInv<R>(s: CacheState<R>, p: string, now: nat)
    requires Inv(s)
    ensures Inv(PingNext(s, p, now))
  {
    var s' := PingNext(s, p, now);
    forall q | IsPending(s', q) ensures IsPending(s, q) && PositionOf(s', q) == PositionOf(s, q) {
    }
  }

  // ---------------------------------------------------------------------------
  // Properties of the worker

  /** The queue holds no identity twice. */
  lemma NoDuplicateJobs<R>(s: CacheState<R>)
    requires Inv(s)
    ensures forall i, j :: 0 <= i < j < |s.jobs| ==> s.jobs[i] != s.jobs[j]
  {
    forall i, j | 0 <= i < j < |s.jobs| ensures s.jobs[i] != s.jobs[j] {
      assert PositionOf(s, s.jobs[i]) < PositionOf(s, s.jobs[j]);
    }
  }

  /** The worker's lookup of the dequeued identity never misses, and what it
      finds is always Pending. */
  lemma DequeuedIsPending<R>(s: CacheState<R>)
    requires Inv(s) && s.jobs != []
    ensures s.jobs[0] in s.calcStatus && s.calcStatus[s.jobs[0]].Pending?
  {
    assert IsPending(s, s.jobs[0]);
  }

  /** The position estimate `sequence - current_queue` of a queued job is at
      least one more than the number of jobs ahead of it. */
  lemma {:induction false} PositionEstimate<R>(s: CacheState<R>, i: nat)
    requires Inv(s) && i < |s.jobs|
    ensures PositionOf(s, s.jobs[i]) - s.currentQueue >= i + 1
  {
    if i > 0 {
      PositionEstimate(s, i - 1);
      assert PositionOf(s, s.jobs[i - 1]) < PositionOf(s, s.jobs[i]);
    } else {
      assert s.currentQueue < PositionOf(s, s.jobs[0]);
    }
  }

  /** A dequeued job whose last ping is over StaleAfter seconds old becomes
      Error, is not calculated, and leaves the worker position alone. */
  lemma StartStale<R>(s: CacheState<R>, now: nat)
    requires Inv(s) && s.jobs != []
    requires Stale(s.calcStatus[s.jobs[0]].lastPing, now)
    ensures StartResult(s, now) == None
    ensures var s' := StartNext(s, now);
      && s'.jobs == s.jobs[1..]
      && s'.calcStatus == s.calcStatus[s.jobs[0] := Error]
      && s'.currentQueue == s.currentQueue
      && s'.data == s.data && s'.lastQueue == s.lastQueue
  {
    DequeuedIsPending(s);
  }

  /** A live dequeued job is handed to the calculator, marked Calculating,
      and its sequence number becomes the worker position. */
  lemma StartLive<R>(s: CacheState<R>, now: nat)
    requires Inv(s) && s.jobs != []
    requires !Stale(s.calcStatus[s.jobs[0]].lastPing, now)
    ensures StartResult(s, now) == Some(s.jobs[0])
    ensures var s' := StartNext(s, now);
      && s'.jobs == s.jobs[1..]
      && s'.calcStatus == s.calcStatus[s.jobs[0] := Calculating]
      && s'.currentQueue == PositionOf(s, s.jobs[0])
      && s'.data == s.data && s'.lastQueue == s.lastQueue
  {
    DequeuedIsPending(s);
  }

  /** With an empty channel there is nothing to do. */
  lemma StartIdle<R>(s: CacheState<R>, now: nat)
    requires s.jobs == []
    ensures StartResult(s, now) == None && StartNext(s, now) == s
  {
  }

  lemma StartPreservesInv<R>(s: CacheState<R>, now: nat)
    requires Inv(s)
    ensures var ok := s.jobs != [] ==> s.jobs[0] in s.calcStatus;
      ok && Inv(StartNext(s, now))
  {
    if s.jobs != [] {
      DequeuedIsPending(s);
      if Stale(s.calcStatus[s.jobs[0]].lastPing, now) {
        StartStale(s, now);
        DequeuePreservesInv(s, StartNext(s, now), Error);
      } else {
        StartLive(s, now);
        DequeuePreservesInv(s, StartNext(s, now), Calculating);
      }
    }
  }

  /** Taking the head off the queue, giving it a non-Pending status and
      optionally advancing the worker position to the head's sequence number
      keeps the invariant. */
  lemma DequeuePreservesInv<R>(s: CacheState<R>, s': CacheState<R>, st: CalcStatus)
    requires Inv(s) && s.jobs != [] && !st.Pending?
    requires s'.jobs == s.jobs[1..] && s'.lastQueue == s.lastQueue
    requires s'.calcStatus == s.calcStatus[s.jobs[0] := st]
    requires s'.currentQueue == s.currentQueue || s'.currentQueue == PositionOf(s, s.jobs[0])
    ensures Inv(s')
  {
    DequeuedIsPending(s);
    NoDuplicateJobs(s);
    var p := s.jobs[0];
    assert !IsPending(s', p);
    forall i | 0 <= i < |s'.jobs|
      ensures s'.jobs[i] == s.jobs[i + 1] && s'.jobs[i] != p
      ensures IsPending(s', s'.jobs[i]) && PositionOf(s', s'.jobs[i]) == PositionOf(s, s.jobs[i + 1])
    {
      assert s.jobs[0] != s.jobs[i + 1];
    }
    forall i | 0 <= i < |s'.jobs|
      ensures s'.currentQueue < PositionOf(s', s'.jobs[i])
    {
      assert PositionOf(s, s.jobs[0]) < PositionOf(s, s.jobs[i + 1]);
    }
    forall q | IsPending(s', q) ensures q in s'.jobs {
      assert q != p && IsPending(s, q) && q in s.jobs;
      var k :| 0 <= k < |s.jobs| && s.jobs[k] == q;
      assert k != 0 && s'.jobs[k - 1] == q;
    }
  }

  /** A successful calculation marks the identity Done and stores the result
      stamped with the completion time; a failed one marks it Error and
      leaves the store untouched. Nothing else changes either way. */
  lemma FinishOutcome<R>(s: CacheState<R>, p: string, outcome: Outcome<R>, now: nat)
    ensures var s' := FinishNext(s, p, outcome, now);
      && s'.jobs == s.jobs && s'.lastQueue == s.lastQueue && s'.currentQueue == s.currentQueue
      && (outcome.Computed? ==>
            s'.calcStatus[p] == Done && Lookup(s'.data, p) == Some(ProfileCache.Entry(outcome.perf, now)))
      && (outcome.Failed? ==> s'.calcStatus[p] == Error && s'.data == s.data)
      && s'.calcStatus.Keys == s.calcStatus.Keys + {p}
      && (forall q :: q != p ==> Lookup(s'.calcStatus, q) == Lookup(s.calcStatus, q))
  {
  }

  lemma FinishPreservesInv<R>(s: CacheState<R>, p: string, outcome: Outcome<R>, now: nat)
    requires Inv(s) && p in s.calcStatus && s.calcStatus[p] == Calculating
    ensures Inv(FinishNext(s, p, outcome, now))
  {
    var s' := FinishNext(s, p, outcome, now);
    forall i | 0 <= i < |s.jobs| ensures s.jobs[i] != p {
      assert IsPending(s, s.jobs[i]);
    }
    forall q | IsPending(s', q) ensures IsPending(s, q) && PositionOf(s', q) == PositionOf(s, q) {
    }
  }
}
