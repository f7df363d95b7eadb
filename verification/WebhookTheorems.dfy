/** What every run of the webhook machine keeps. */
module WebhookTheorems {
  import opened Wrappers
  import opened WebhookSpec

  // ----- rows and worker

  lemma AnswerKeepsRow(row: Delivery, job: Job, start: int, ok: bool, now: int)
    requires RowOk(row) && row.status == Pending && row.attempts == job.attempts && row.nextAt <= start <= now
    ensures RowOk(Answer(row, job, start, ok, now))
  {
    var row' := Answer(row, job, start, ok, now);
    forall i | 0 <= i < |row'.sends| - 1 ensures row'.sends[i] + Backoff(i + 1) <= row'.sends[i + 1] {
      if i < |row.sends| - 1 {
        assert row.sends[i] + Backoff(i + 1) <= row.sends[i + 1];
      }
    }
  }

  lemma RespondKeepsRows(s: State, ok: bool)
    requires RowsOk(s) && WorkerOk(s) && s.worker.Sending?
    ensures RowsOk(Responded(s, ok)) && WorkerOk(Responded(s, ok))
  {
    var Sending(job, start, queue) := s.worker;
    var t := Responded(s, ok);
    if job.id in s.deliveries {
      AnswerKeepsRow(s.deliveries[job.id], job, start, ok, s.now);
    }
    forall i | 0 <= i < |queue| ensures JobOk(t, queue[i], t.now) {
      assert JobOk(s, queue[i], s.now);
    }
  }

  lemma FetchKeeps(s: State, batch: seq<Id>)
    requires RowsOk(s) && Enabled(s, Fetch(batch))
    ensures QueueOk(Apply(s, Fetch(batch)), JobsOf(s, batch))
  {
  }

  /** Rows in the queue are pending: no handler but a delete can touch them. */
  lemma HandlersKeepJob(s: State, e: Event, job: Job, at: int)
    requires RowsOk(s) && Enabled(s, e) && !ByWorker(e) && JobOk(s, job, at)
    ensures JobOk(Apply(s, e), job, at)
  {
  }

  lemma HandlersKeepWorker(s: State, e: Event)
    requires RowsOk(s) && WorkerOk(s) && Enabled(s, e) && !ByWorker(e)
    ensures WorkerOk(Apply(s, e))
  {
    var t := Apply(s, e);
    assert t.worker == s.worker && t.now >= s.now;
    if !s.worker.Idle? {
      forall i | 0 <= i < |s.worker.queue| ensures JobOk(t, s.worker.queue[i], t.now) {
        HandlersKeepJob(s, e, s.worker.queue[i], s.now);
      }
      if s.worker.Sending? {
        HandlersKeepJob(s, e, s.worker.job, s.worker.start);
      }
    }
  }

  lemma HandlersKeepRows(s: State, e: Event)
    requires RowsOk(s) && Enabled(s, e) && !ByWorker(e)
    ensures RowsOk(Apply(s, e))
  {
  }

  lemma WorkerKeepsRows(s: State, e: Event)
    requires RowsOk(s) && WorkerOk(s) && Enabled(s, e) && ByWorker(e)
    ensures RowsOk(Apply(s, e)) && WorkerOk(Apply(s, e))
  {
    if e.Fetch? {
      FetchKeeps(s, e.batch);
    } else if e.Respond? {
      RespondKeepsRows(s, e.ok);
    } else {
      var t := Apply(s, e);
      forall i | 0 <= i < |s.worker.queue| ensures JobOk(t, s.worker.queue[i], t.now) {
        assert JobOk(s, s.worker.queue[i], s.now);
      }
    }
  }

  // ----- strikes

  lemma Marked(marks: seq<Mark>, m: Mark)
    ensures (marks + [m])[..|marks|] == marks && LastMark(marks + [m]) == Some(m)
  {
  }

  lemma ReenabledMeansNone(marks: seq<Mark>)
    requires LastMark(marks) == Some(Reenabled)
    ensures Accounted(marks, 0) && Count(marks) == 0 && !Missed(marks)
    ensures Trailing(marks) == 0 && Lost(marks) == 0 && Kept(marks) == 0 && Late(marks) == 0
  {
  }

  lemma AnsweredIsOk(row: Endpoint, ep: Id, w: Worker, queue: seq<Job>)
    requires EndpointOk(row, ep, w) && w.Sending?
    ensures EndpointOk(row.(marks := row.marks + [Answered]), ep, Clearing(ep, queue))
  {
    Marked(row.marks, Answered);
  }

  lemma ExhaustedIsOk(row: Endpoint, ep: Id, w: Worker, queue: seq<Job>)
    requires EndpointOk(row, ep, w) && w.Sending?
    ensures EndpointOk(row.(marks := row.marks + [Exhausted]), ep, Bumping(ep, queue))
  {
    Marked(row.marks, Exhausted);
  }

  lemma RespondKeepsEndpoints(s: State, ok: bool)
    requires EndpointsOk(s) && s.worker.Sending?
    ensures EndpointsOk(Responded(s, ok))
  {
    var t := Responded(s, ok);
    var Sending(job, _, queue) := s.worker;
    forall ep <- t.endpoints ensures EndpointOk(t.endpoints[ep], ep, t.worker) {
      assert EndpointOk(s.endpoints[ep], ep, s.worker);
      if ep == job.endpoint && ok {
        AnsweredIsOk(s.endpoints[ep], ep, s.worker, queue);
      } else if ep == job.endpoint && job.attempts + 1 >= MAX_ATTEMPTS {
        ExhaustedIsOk(s.endpoints[ep], ep, s.worker, queue);
      }
    }
  }

  lemma ClearKeepsEndpoints(s: State)
    requires EndpointsOk(s) && s.worker.Clearing?
    ensures EndpointsOk(Apply(s, Clear))
  {
    var t := Apply(s, Clear);
    forall ep <- t.endpoints ensures EndpointOk(t.endpoints[ep], ep, t.worker) {
      assert EndpointOk(s.endpoints[ep], ep, s.worker);
      if ep == s.worker.ep {
        Marked(s.endpoints[ep].marks, Cleared);
      }
    }
  }

  lemma BumpKeepsEndpoints(s: State)
    requires EndpointsOk(s) && s.worker.Bumping?
    ensures EndpointsOk(Apply(s, Bump))
  {
    var t := Apply(s, Bump);
    forall ep <- t.endpoints ensures EndpointOk(t.endpoints[ep], ep, t.worker) {
      assert EndpointOk(s.endpoints[ep], ep, s.worker);
      if ep == s.worker.ep {
        var marks := s.endpoints[ep].marks;
        Marked(marks, Bumped);
        if LastMark(marks) == Some(Reenabled) {
          ReenabledMeansNone(marks);
        }
      }
    }
  }

  lemma DisableKeepsEndpoints(s: State)
    requires EndpointsOk(s) && s.worker.Disabling?
    ensures EndpointsOk(Apply(s, Disable))
  {
    var t := Apply(s, Disable);
    forall ep <- t.endpoints ensures EndpointOk(t.endpoints[ep], ep, t.worker) {
      assert EndpointOk(s.endpoints[ep], ep, s.worker);
    }
  }

  lemma ClearLostIsOk(row: Endpoint, ep: Id, queue: seq<Job>)
    requires EndpointOk(row, ep, Clearing(ep, queue))
    ensures EndpointOk(row.(marks := row.marks + [ClearLost]), ep, Idle)
  {
    Marked(row.marks, ClearLost);
  }

  lemma BumpLostIsOk(row: Endpoint, ep: Id, queue: seq<Job>)
    requires EndpointOk(row, ep, Bumping(ep, queue))
    ensures EndpointOk(row.(marks := row.marks + [BumpLost]), ep, Idle)
  {
    Marked(row.marks, BumpLost);
    if LastMark(row.marks) == Some(Reenabled) {
      ReenabledMeansNone(row.marks);
    }
  }

  lemma SwitchLostIsOk(row: Endpoint, ep: Id, queue: seq<Job>)
    requires EndpointOk(row, ep, Disabling(ep, queue))
    ensures EndpointOk(row.(marks := row.marks + [SwitchLost]), ep, Idle)
  {
    Marked(row.marks, SwitchLost);
    if LastMark(row.marks) == Some(Reenabled) {
      ReenabledMeansNone(row.marks);
    }
  }

  lemma DieKeepsEndpoints(s: State)
    requires EndpointsOk(s) && !s.worker.Idle?
    ensures EndpointsOk(Died(s))
  {
    var t := Died(s);
    forall ep <- t.endpoints ensures EndpointOk(t.endpoints[ep], ep, t.worker) {
      assert EndpointOk(s.endpoints[ep], ep, s.worker);
      if Standing(s.worker, ep) {
        match s.worker {
          case Clearing(_, queue) => ClearLostIsOk(s.endpoints[ep], ep, queue);
          case Bumping(_, queue) => BumpLostIsOk(s.endpoints[ep], ep, queue);
          case Disabling(_, queue) => SwitchLostIsOk(s.endpoints[ep], ep, queue);
        }
      }
    }
  }

  lemma ReenabledIsOk(row: Endpoint, ep: Id, w: Worker)
    requires EndpointOk(row, ep, w)
    ensures EndpointOk(ReenabledOf(row), ep, w)
  {
    Marked(row.marks, Reenabled);
    ReenabledMeansNone(row.marks + [Reenabled]);
  }

  lemma DisabledIsOk(row: Endpoint, ep: Id, w: Worker)
    requires EndpointOk(row, ep, w)
    ensures EndpointOk(row.(enabled := false), ep, w)
  {
  }

  lemma PatchKeepsEndpoints(s: State, at: Id, enabled: Option<bool>)
    requires EndpointsOk(s)
    ensures EndpointsOk(Patched(s, at, enabled))
  {
    var t := Patched(s, at, enabled);
    forall ep <- t.endpoints ensures EndpointOk(t.endpoints[ep], ep, t.worker) {
      assert EndpointOk(s.endpoints[ep], ep, s.worker);
      if ep == at && enabled.Some? {
        ReenabledIsOk(s.endpoints[ep], ep, s.worker);
        DisabledIsOk(s.endpoints[ep], ep, s.worker);
      }
    }
  }

  lemma EndpointAddKeeps(s: State, at: Id)
    requires EndpointsOk(s) && WorkerOk(s) && Enabled(s, AddEndpoint(at))
    ensures EndpointsOk(Apply(s, AddEndpoint(at)))
  {
    var t := Apply(s, AddEndpoint(at));
    forall ep <- t.endpoints ensures EndpointOk(t.endpoints[ep], ep, t.worker) {
      if ep != at {
        assert EndpointOk(s.endpoints[ep], ep, s.worker);
      }
    }
  }

  /** The other steps leave the endpoints, or drop one, and never stand between two statements. */
  lemma RestKeepsEndpoints(s: State, e: Event)
    requires EndpointsOk(s) && Enabled(s, e)
    requires !e.Respond? && !e.Clear? && !e.Bump? && !e.Disable? && !e.Die? && !e.Patch? && !e.AddEndpoint?
    ensures EndpointsOk(Apply(s, e))
  {
    var t := Apply(s, e);
    forall ep <- t.endpoints ensures EndpointOk(t.endpoints[ep], ep, t.worker) {
      assert EndpointOk(s.endpoints[ep], ep, s.worker);
    }
  }

  lemma StepKeeps(s: State, e: Event)
    requires Inv(s) && Enabled(s, e)
    ensures Inv(Apply(s, e))
  {
    if ByWorker(e) {
      WorkerKeepsRows(s, e);
    } else {
      HandlersKeepRows(s, e);
      HandlersKeepWorker(s, e);
    }
    match e
    case Respond(ok) => RespondKeepsEndpoints(s, ok);
    case Clear => ClearKeepsEndpoints(s);
    case Bump => BumpKeepsEndpoints(s);
    case Disable => DisableKeepsEndpoints(s);
    case Die => DieKeepsEndpoints(s);
    case Patch(ep, enabled) => PatchKeepsEndpoints(s, ep, enabled);
    case AddEndpoint(ep) => EndpointAddKeeps(s, ep);
    case _ => RestKeepsEndpoints(s, e);
  }

  lemma {:induction false} RunKeeps(s: State, es: seq<Event>)
    requires Inv(s) && Runs(s, es)
    ensures Inv(After(s, es))
    decreases |es|
  {
    if es != [] {
      StepKeeps(s, es[0]);
      RunKeeps(Apply(s, es[0]), es[1..]);
    }
  }

  lemma ReachableInv(s: State)
    requires Reachable(s)
    ensures Inv(s)
  {
    var es :| Runs(EMPTY, es) && After(EMPTY, es) == s;
    RunKeeps(EMPTY, es);
  }

  // ----- theorems

  /** In every reachable state the status of a delivery bounds its attempts. */
  lemma AttemptsMatchStatus(s: State, d: Id)
    requires Reachable(s) && d in s.deliveries
    ensures var row := s.deliveries[d];
            && (row.status == Pending ==> row.attempts < 6)
            && (row.status == Failed ==> row.attempts == 6)
            && (row.status == Delivered ==> 1 <= row.attempts <= 6)
  {
    ReachableInv(s);
  }

  /** Seconds from the n-th failed attempt to the next one. */
  function Wait(n: nat): int
    requires 1 <= n < 6
  {
    match n
    case 1 => 10
    case 2 => 60
    case 3 => 300
    case 4 => 1_800
    case 5 => 7_200
  }

  /**
   * What an answer does to its row, if the row is still there: any success delivers it; a failure
   * gives it up at the sixth attempt, and before that leaves it pending for its wait.
   */
  lemma AnswerDecides(s: State, ok: bool)
    requires Reachable(s) && s.worker.Sending? && s.worker.job.id in s.deliveries
    ensures var d := s.worker.job.id;
            var t := Apply(s, Respond(ok));
            && d in t.deliveries
            && var row, row' := s.deliveries[d], t.deliveries[d];
               && row'.attempts == row.attempts + 1 && row'.endpoint == row.endpoint
               && row'.sends == row.sends + [s.worker.start]
               && (ok ==> row'.status == Delivered)
               && (!ok && row.attempts + 1 < 6 ==> row'.status == Pending && row'.nextAt == s.now + Wait(row.attempts + 1))
               && (!ok && row.attempts + 1 >= 6 ==> row'.status == Failed)
    ensures forall other <- s.deliveries :: other != s.worker.job.id ==>
              other in Apply(s, Respond(ok)).deliveries && Apply(s, Respond(ok)).deliveries[other] == s.deliveries[other]
  {
    ReachableInv(s);
  }

  // ----- what the handlers do

  /** Switching an endpoint on clears its strikes, switching it off keeps them, and no delivery changes. */
  lemma PatchDoes(s: State, ep: Id, enabled: Option<bool>)
    ensures var t := Apply(s, Patch(ep, enabled));
            && t.deliveries == s.deliveries && t.endpoints.Keys == s.endpoints.Keys && t.worker == s.worker
            && (forall other <- s.endpoints :: other != ep ==> t.endpoints[other] == s.endpoints[other])
            && (ep in s.endpoints && enabled == Some(true) ==> t.endpoints[ep].enabled && t.endpoints[ep].failures == 0)
            && (ep in s.endpoints && enabled == Some(false) ==> t.endpoints[ep] == s.endpoints[ep].(enabled := false))
            && (enabled == None ==> t == s)
  {
  }

  /** Exactly a failed delivery starts over, with no attempt made and nothing to wait for. */
  lemma RedeliverDoes(s: State, d: Id)
    ensures var t := Apply(s, Redeliver(d));
            && t.endpoints == s.endpoints && t.worker == s.worker && t.deliveries.Keys == s.deliveries.Keys
            && (forall other <- s.deliveries :: other != d ==> t.deliveries[other] == s.deliveries[other])
            && (d in s.deliveries && s.deliveries[d].status == Failed ==>
                  t.deliveries[d] == Delivery(s.deliveries[d].endpoint, Pending, 0, s.now, []))
            && (d in s.deliveries && s.deliveries[d].status != Failed ==> t == s)
  {
  }

  /** A deleted endpoint takes exactly its own deliveries with it. */
  lemma DeleteDoes(s: State, ep: Id)
    ensures var t := Apply(s, DeleteEndpoint(ep));
            && t.endpoints == s.endpoints - {ep} && t.worker == s.worker
            && (forall d :: d in t.deliveries <==> d in s.deliveries && s.deliveries[d].endpoint != ep)
            && (forall d <- t.deliveries :: t.deliveries[d] == s.deliveries[d])
  {
  }

  /** A pending delivery leaves the table only with its endpoint; a new one is pending, due at once, with no attempt made. */
  lemma RowsComeAndGo(s: State, e: Event, d: Id)
    requires Inv(s) && Enabled(s, e)
    ensures d in s.deliveries && s.deliveries[d].status == Pending && d !in Apply(s, e).deliveries ==>
              e == DeleteEndpoint(s.deliveries[d].endpoint)
    ensures d !in s.deliveries && d in Apply(s, e).deliveries ==>
              && e.Enqueue? && e.d == d && d !in s.deliveryIds && e.ep in s.endpoints
              && Apply(s, e).deliveries[d] == Delivery(e.ep, Pending, 0, s.now, [])
  {
    if ByWorker(e) {
      WorkerKeepsKeys(s, e);
    }
  }

  lemma WorkerKeepsKeys(s: State, e: Event)
    requires Enabled(s, e) && ByWorker(e)
    ensures Apply(s, e).deliveries.Keys == s.deliveries.Keys
  {
  }

  // ----- what a tick fetches

  /** Pending, its time come, and its endpoint there and switched on. */
  predicate ReadyToSend(s: State, d: Id) {
    && d in s.deliveries && s.deliveries[d].status == Pending && s.deliveries[d].nextAt <= s.now
    && s.deliveries[d].endpoint in s.endpoints && s.endpoints[s.deliveries[d].endpoint].enabled
  }

  /** A tick fetches at most fifty rows that are ready, the earliest first, each once, and misses one only for fifty no later. */
  lemma FetchIff(s: State, batch: seq<Id>)
    requires s.worker.Idle?
    ensures Enabled(s, Fetch(batch)) <==>
            && |batch| <= 50
            && (forall i :: 0 <= i < |batch| ==> ReadyToSend(s, batch[i]))
            && (forall i, j :: 0 <= i < j < |batch| ==>
                  batch[i] != batch[j] && s.deliveries[batch[i]].nextAt <= s.deliveries[batch[j]].nextAt)
            && (forall d <- s.deliveries :: ReadyToSend(s, d) && d !in batch ==>
                  |batch| == 50 && s.deliveries[batch[49]].nextAt <= s.deliveries[d].nextAt)
  {
    forall d ensures Due(s, d) <==> ReadyToSend(s, d) {
    }
  }

  lemma {:induction false} EarliestOf(s: State, left: set<Id>) returns (d: Id)
    requires left != {} && left <= s.deliveries.Keys
    ensures d in left && forall other <- left :: s.deliveries[d].nextAt <= s.deliveries[other].nextAt
    decreases |left|
  {
    d :| d in left;
    if left != {d} {
      var rest := EarliestOf(s, left - {d});
      assert forall other <- left :: other == d || other in left - {d};
      if s.deliveries[rest].nextAt < s.deliveries[d].nextAt {
        d := rest;
      }
    }
  }

  /** An idle worker can always start a tick: the query has an answer. */
  lemma FetchExists(s: State) returns (batch: seq<Id>)
    requires s.worker.Idle?
    ensures Enabled(s, Fetch(batch))
  {
    batch := [];
    var left := set d | d in s.deliveries && ReadyToSend(s, d);
    while |batch| < 50 && left != {}
      invariant |batch| <= 50 && forall d <- left :: d in s.deliveries && ReadyToSend(s, d)
      invariant forall i :: 0 <= i < |batch| ==> ReadyToSend(s, batch[i]) && batch[i] !in left
      invariant forall i, j :: 0 <= i < j < |batch| ==>
                  batch[i] != batch[j] && s.deliveries[batch[i]].nextAt <= s.deliveries[batch[j]].nextAt
      invariant forall d <- s.deliveries :: ReadyToSend(s, d) ==> d in batch || d in left
      invariant forall i, d :: 0 <= i < |batch| && d in left ==> s.deliveries[batch[i]].nextAt <= s.deliveries[d].nextAt
      decreases |left|
    {
      var next := EarliestOf(s, left);
      batch, left := batch + [next], left - {next};
    }
    FetchIff(s, batch);
  }

  // ----- a delivered event is never sent again

  /** Some batch of the run holds the delivery. */
  ghost predicate FetchedAlong(es: seq<Event>, d: Id) {
    exists e <- es :: e.Fetch? && d in e.batch
  }

  /** The delivery was used up, or stands as delivered. */
  ghost predicate Done(s: State, d: Id) {
    d in s.deliveryIds && (d in s.deliveries ==> s.deliveries[d].status == Delivered)
  }

  lemma DoneStep(s: State, e: Event, d: Id)
    requires Inv(s) && Enabled(s, e) && Done(s, d)
    ensures Done(Apply(s, e), d)
    ensures d in Apply(s, e).deliveries ==> d in s.deliveries && Apply(s, e).deliveries[d] == s.deliveries[d]
    ensures e.Fetch? ==> d !in e.batch
  {
    IdsGrow(s, e);
    if e.Respond? {
      assert JobOk(s, s.worker.job, s.worker.start);
    } else {
      DoneUntouched(s, e, d);
    }
  }

  lemma DoneUntouched(s: State, e: Event, d: Id)
    requires Enabled(s, e) && !e.Respond? && Done(s, d)
    ensures d in Apply(s, e).deliveries ==> d in s.deliveries && Apply(s, e).deliveries[d] == s.deliveries[d]
  {
  }

  /** A delivered event stays delivered, with the attempts it had, and is in no batch ever again. */
  lemma {:induction false} DeliveredStays(s: State, es: seq<Event>, d: Id)
    requires Inv(s) && Runs(s, es) && d in s.deliveryIds && (d in s.deliveries ==> s.deliveries[d].status == Delivered)
    ensures d in After(s, es).deliveries ==> d in s.deliveries && After(s, es).deliveries[d] == s.deliveries[d]
    ensures !FetchedAlong(es, d)
    decreases |es|
  {
    if es != [] {
      DoneStep(s, es[0], d);
      StepKeeps(s, es[0]);
      DeliveredStays(Apply(s, es[0]), es[1..], d);
      assert es == [es[0]] + es[1..];
    }
  }

  /** Some attempt of the delivery was answered with a success along the run. */
  ghost predicate AnsweredAlong(s: State, es: seq<Event>, d: Id)
    requires Runs(s, es)
    decreases |es|
  {
    es != [] && ((es[0] == Respond(true) && s.worker.job.id == d) || AnsweredAlong(Apply(s, es[0]), es[1..], d))
  }

  lemma DeliveredDelta(s: State, e: Event, d: Id)
    requires Inv(s) && Enabled(s, e) && d in Apply(s, e).deliveries
    ensures Apply(s, e).deliveries[d].status == Delivered <==>
            (d in s.deliveries && s.deliveries[d].status == Delivered) || (e == Respond(true) && s.worker.job.id == d)
  {
    if e.Respond? {
      assert JobOk(s, s.worker.job, s.worker.start);
    } else {
      OnlyAnswersDeliver(s, e, d);
    }
  }

  lemma OnlyAnswersDeliver(s: State, e: Event, d: Id)
    requires s.deliveries.Keys <= s.deliveryIds && Enabled(s, e) && !e.Respond? && d in Apply(s, e).deliveries
    ensures Apply(s, e).deliveries[d].status == Delivered <==> d in s.deliveries && s.deliveries[d].status == Delivered
  {
  }

  lemma {:induction false} GoneStaysGone(s: State, es: seq<Event>, d: Id)
    requires Inv(s) && Runs(s, es) && d in s.deliveryIds && d !in s.deliveries
    ensures d !in After(s, es).deliveries
  {
    DeliveredStays(s, es, d);
  }

  lemma {:induction false} DeliveredAlong(s: State, es: seq<Event>, d: Id)
    requires Inv(s) && Runs(s, es) && d in After(s, es).deliveries
    ensures After(s, es).deliveries[d].status == Delivered <==>
            (d in s.deliveries && s.deliveries[d].status == Delivered) || AnsweredAlong(s, es, d)
    decreases |es|
  {
    if es != [] {
      var e, t := es[0], Apply(s, es[0]);
      StepKeeps(s, e);
      DeliveredAlong(t, es[1..], d);
      if d in t.deliveries {
        DeliveredDelta(s, e, d);
      } else if d in s.deliveries || (e == Respond(true) && s.worker.job.id == d) {
        StillUsed(s, e, d);
        GoneStaysGone(t, es[1..], d);
      }
    }
  }

  lemma StillUsed(s: State, e: Event, d: Id)
    requires Inv(s) && Enabled(s, e) && (d in s.deliveries || (e == Respond(true) && s.worker.job.id == d))
    ensures d in Apply(s, e).deliveryIds
  {
    IdsGrow(s, e);
    if e == Respond(true) {
      assert JobOk(s, s.worker.job, s.worker.start);
    }
  }

  lemma IdsGrow(s: State, e: Event)
    requires Enabled(s, e)
    ensures s.deliveryIds <= Apply(s, e).deliveryIds
  {
    if ByWorker(e) {
      WorkerKeepsIds(s, e);
    }
  }

  lemma WorkerKeepsIds(s: State, e: Event)
    requires Enabled(s, e) && ByWorker(e)
    ensures Apply(s, e).deliveryIds == s.deliveryIds
  {
  }

  /** In every run a delivery is delivered if and only if one of its attempts was answered with a success. */
  lemma DeliveredIffAnswered(es: seq<Event>, d: Id)
    requires Runs(EMPTY, es) && d in After(EMPTY, es).deliveries
    ensures After(EMPTY, es).deliveries[d].status == Delivered <==> AnsweredAlong(EMPTY, es, d)
  {
    DeliveredAlong(EMPTY, es, d);
  }

  /** A failed attempt that is not the last waits one of the first five entries; the sixth is never used. */
  lemma BackoffIndexInRange(s: State)
    requires Reachable(s) && s.worker.Sending? && s.worker.job.attempts + 1 < 6
    ensures s.worker.job.attempts < 5
    ensures var job := s.worker.job;
            job.id in s.deliveries ==>
              Apply(s, Respond(false)).deliveries[job.id].nextAt == s.now + Wait(job.attempts + 1)
  {
    ReachableInv(s);
  }

  /** The fetched copy of a row is never stale: what the worker writes back is the row's own next attempt. */
  lemma SnapshotIsCurrent(s: State)
    requires Reachable(s) && s.worker.Sending? && s.worker.job.id in s.deliveries
    ensures s.deliveries[s.worker.job.id].status == Pending
    ensures s.deliveries[s.worker.job.id].attempts == s.worker.job.attempts
  {
    ReachableInv(s);
  }

  /** Six attempts of an event that is given up are at least 10 + 60 + 300 + 1800 + 7200 s apart, end to end. */
  lemma LadderSpans(s: State, d: Id)
    requires Reachable(s) && d in s.deliveries && s.deliveries[d].status == Failed
    ensures |s.deliveries[d].sends| == 6
    ensures s.deliveries[d].sends[5] - s.deliveries[d].sends[0] >= 9370
  {
    ReachableInv(s);
    var sends := s.deliveries[d].sends;
    assert sends[0] + Backoff(0 + 1) <= sends[0 + 1];
    assert sends[1] + Backoff(1 + 1) <= sends[1 + 1];
    assert sends[2] + Backoff(2 + 1) <= sends[2 + 1];
    assert sends[3] + Backoff(3 + 1) <= sends[3 + 1];
    assert sends[4] + Backoff(4 + 1) <= sends[4 + 1];
  }

  /**
   * Between ticks an enabled endpoint has ten strikes or more exactly when a tick broke off
   * between a tenth strike and the switch-off, and nothing has cleared the strikes since.
   */
  lemma EnabledWithTenStrikesIff(s: State, ep: Id)
    requires Reachable(s) && ep in s.endpoints && s.worker.Idle? && s.endpoints[ep].enabled
    ensures s.endpoints[ep].failures >= 10 <==> Missed(s.endpoints[ep].marks)
  {
    ReachableInv(s);
    assert EndpointOk(s.endpoints[ep], ep, s.worker);
  }

  /**
   * Between ticks the strike count differs from the number of deliveries exhausted since the
   * endpoint last answered or was re-enabled by the strikes kept past an answer and booked
   * across a re-enabling, less those lost: it is that number exactly when these are as many.
   */
  lemma StrikesAreTrailingRun(s: State, ep: Id)
    requires Reachable(s) && ep in s.endpoints && s.worker.Idle?
    ensures var marks := s.endpoints[ep].marks;
            && s.endpoints[ep].failures + Lost(marks) == Trailing(marks) + Kept(marks) + Late(marks)
            && (s.endpoints[ep].failures == Trailing(marks) <==> Lost(marks) == Kept(marks) + Late(marks))
  {
    ReachableInv(s);
    assert EndpointOk(s.endpoints[ep], ep, s.worker);
  }

  lemma {:induction false} WholeTicksLoseNothing(marks: seq<Mark>)
    requires ClearLost !in marks && BumpLost !in marks
    ensures Lost(marks) == Kept(marks) == 0
  {
    if marks != [] {
      WholeTicksLoseNothing(marks[..|marks| - 1]);
    }
  }

  lemma {:induction false} SwitchedOffIsNotMissed(marks: seq<Mark>)
    requires SwitchLost !in marks
    ensures !Missed(marks)
  {
    if marks != [] {
      SwitchedOffIsNotMissed(marks[..|marks| - 1]);
    }
  }

  /** When no tick has broken off at the endpoint, it has fewer than ten strikes while enabled, and at most one too many. */
  lemma WholeTicksCount(s: State, ep: Id)
    requires Reachable(s) && ep in s.endpoints && s.worker.Idle?
    requires var marks := s.endpoints[ep].marks; ClearLost !in marks && BumpLost !in marks && SwitchLost !in marks
    ensures s.endpoints[ep].enabled ==> s.endpoints[ep].failures < 10
    ensures s.endpoints[ep].failures == Trailing(s.endpoints[ep].marks) + Late(s.endpoints[ep].marks)
  {
    ReachableInv(s);
    assert EndpointOk(s.endpoints[ep], ep, s.worker);
    WholeTicksLoseNothing(s.endpoints[ep].marks);
    SwitchedOffIsNotMissed(s.endpoints[ep].marks);
  }

  /** A re-enabling that lands between the two statements of an exhausted delivery leaves one strike too many. */
  lemma LateStrikeMiscounts(s: State)
    requires Reachable(s) && s.worker.Bumping? && s.worker.ep in s.endpoints
    ensures var ep := s.worker.ep;
            var t := Apply(Apply(s, Patch(ep, Some(true))), Bump);
            t.endpoints[ep].failures == 1 && Trailing(t.endpoints[ep].marks) == 0 && t.endpoints[ep].enabled
  {
    var ep := s.worker.ep;
    var marks := s.endpoints[ep].marks;
    Marked(marks, Reenabled);
    Marked(marks + [Reenabled], Bumped);
  }

  lemma {:induction false} RunsAppend(s: State, es: seq<Event>, e: Event)
    requires Runs(s, es) && Enabled(After(s, es), e)
    ensures Runs(s, es + [e]) && After(s, es + [e]) == Apply(After(s, es), e)
    decreases |es|
  {
    if es == [] {
      assert [e][1..] == [];
    } else {
      assert (es + [e])[1..] == es[1..] + [e];
      RunsAppend(Apply(s, es[0]), es[1..], e);
    }
  }

  lemma Next(s: State, e: Event)
    requires Reachable(s) && Enabled(s, e)
    ensures Reachable(Apply(s, e))
  {
    var es :| Runs(EMPTY, es) && After(EMPTY, es) == s;
    RunsAppend(EMPTY, es, e);
  }

  /** One endpoint and one pending delivery, between ticks. */
  function OneRow(k: nat, nextAt: int, sends: seq<int>, row: Endpoint): State {
    State(nextAt, map[0 := Delivery(0, Pending, k, nextAt, sends)], map[0 := row], Idle, {0}, {0})
  }

  lemma SendRow(k: nat, nextAt: int, sends: seq<int>, row: Endpoint) returns (s: State)
    requires k < MAX_ATTEMPTS && row.enabled && Reachable(OneRow(k, nextAt, sends, row))
    ensures Reachable(s) && s == OneRow(k, nextAt, sends, row).(worker := Sending(Job(0, 0, k), nextAt, []))
  {
    s := OneRow(k, nextAt, sends, row);
    Next(s, Fetch([0]));
    var fetched := Apply(s, Fetch([0]));
    assert fetched.worker == Ready([Job(0, 0, k)]);
    Next(fetched, Send);
    s := Apply(fetched, Send);
  }

  lemma AttemptFails(k: nat, nextAt: int, sends: seq<int>, row: Endpoint) returns (s: State)
    requires k < MAX_ATTEMPTS && row.enabled && Reachable(OneRow(k, nextAt, sends, row))
    ensures Reachable(s)
    ensures s == Responded(OneRow(k, nextAt, sends, row).(worker := Sending(Job(0, 0, k), nextAt, [])), false)
  {
    s := SendRow(k, nextAt, sends, row);
    Next(s, Respond(false));
    s := Responded(s, false);
  }

  lemma {:induction false} ClimbLadder(k: nat, start: int, row: Endpoint) returns (nextAt: int, sends: seq<int>)
    requires k < MAX_ATTEMPTS && row.enabled && Reachable(OneRow(0, start, [], row))
    ensures Reachable(OneRow(k, nextAt, sends, row))
  {
    if k == 0 {
      nextAt, sends := start, [];
    } else {
      nextAt, sends := ClimbLadder(k - 1, start, row);
      var s := AttemptFails(k - 1, nextAt, sends, row);
      Next(s, Finish);
      var idle := Apply(s, Finish);
      sends := sends + [nextAt];
      nextAt := nextAt + Backoff(k);
      Next(idle, Advance(nextAt));
      assert Apply(idle, Advance(nextAt)) == OneRow(k, nextAt, sends, row);
    }
  }

  /** One delivery fails its six attempts: its strike is about to be booked. */
  lemma ExhaustRow(start: int, row: Endpoint) returns (s: State)
    requires row.enabled && Reachable(OneRow(0, start, [], row))
    ensures Reachable(s) && s.worker == Bumping(0, [])
    ensures s.endpoints == map[0 := row.(marks := row.marks + [Exhausted])]
    ensures s.deliveries.Keys == s.deliveryIds == s.endpointIds == {0}
    ensures s.deliveries[0].status == Failed && s.deliveries[0].endpoint == 0
  {
    var nextAt, sends := ClimbLadder(5, start, row);
    s := AttemptFails(5, nextAt, sends, row);
  }

  /** The strike is booked, and the failed delivery starts over. */
  lemma StrikeOnce(start: int, row: Endpoint) returns (again: int)
    requires row.enabled && row.failures + 1 < DISABLE_AFTER_FAILURES && Reachable(OneRow(0, start, [], row))
    ensures Reachable(OneRow(0, again, [], BumpedOf(row.(marks := row.marks + [Exhausted]))))
  {
    var s := ExhaustRow(start, row);
    Next(s, Bump);
    var bumped := Apply(s, Bump);
    Next(bumped, Finish);
    var idle := Apply(bumped, Finish);
    Next(idle, Redeliver(0));
    again := idle.now;
    assert Apply(idle, Redeliver(0)) == OneRow(0, again, [], bumped.endpoints[0]);
  }

  /** Redelivered again and again, the delivery brings the endpoint to any number of strikes below ten. */
  lemma {:induction false} StrikeTimes(n: nat) returns (start: int, row: Endpoint)
    requires n < DISABLE_AFTER_FAILURES
    ensures Reachable(OneRow(0, start, [], row)) && row.enabled && row.failures == n
    ensures Trailing(row.marks) == n
  {
    if n == 0 {
      start, row := 0, Endpoint(true, 0, []);
      assert Runs(EMPTY, []) && After(EMPTY, []) == EMPTY;
      Next(EMPTY, AddEndpoint(0));
      var s := Apply(EMPTY, AddEndpoint(0));
      Next(s, Enqueue(0, 0));
      assert Apply(s, Enqueue(0, 0)) == OneRow(0, 0, [], row);
    } else {
      start, row := StrikeTimes(n - 1);
      start := StrikeOnce(start, row);
      Marked(row.marks, Exhausted);
      Marked(row.marks + [Exhausted], Bumped);
      row := BumpedOf(row.(marks := row.marks + [Exhausted]));
    }
  }

  /** The window of LateStrikeMiscounts is reached by one delivery that fails six times. */
  lemma LateStrikeCanHappen() returns (s: State)
    ensures Reachable(s) && s.worker.Bumping? && s.worker.ep in s.endpoints
  {
    var start, row := StrikeTimes(0);
    s := ExhaustRow(start, row);
  }

  /** A tick that breaks off before the strike of an exhausted delivery loses it. */
  lemma StrikeCanBeLost() returns (s: State)
    ensures Reachable(s) && s.worker.Idle? && 0 in s.endpoints
    ensures s.endpoints[0].failures == 0 && Trailing(s.endpoints[0].marks) == 1
  {
    var start, row := StrikeTimes(0);
    s := ExhaustRow(start, row);
    Marked(row.marks, Exhausted);
    Marked(row.marks + [Exhausted], BumpLost);
    Next(s, Die);
    s := Died(s);
  }

  /** A tick that breaks off between a successful delivery and its clearing keeps the strikes. */
  lemma ClearCanBeLost(n: nat) returns (s: State)
    requires n < 10
    ensures Reachable(s) && s.worker.Idle? && 0 in s.endpoints
    ensures s.endpoints[0].failures == n && Trailing(s.endpoints[0].marks) == 0
  {
    var start, row := StrikeTimes(n);
    s := SendRow(0, start, [], row);
    Next(s, Respond(true));
    s := Responded(s, true);
    Marked(row.marks, Answered);
    Marked(row.marks + [Answered], ClearLost);
    Next(s, Die);
    s := Died(s);
  }

  /** A tick that breaks off between the tenth strike and the switch-off leaves the endpoint enabled with ten. */
  lemma SwitchOffCanBeLost() returns (s: State)
    ensures Reachable(s) && s.worker.Idle? && 0 in s.endpoints
    ensures s.endpoints[0].enabled && s.endpoints[0].failures == 10
  {
    var start, row := StrikeTimes(9);
    s := ExhaustRow(start, row);
    Next(s, Bump);
    s := Apply(s, Bump);
    Next(s, Die);
    s := Died(s);
  }

  /**
   * The worker goes on to switch an endpoint off exactly when the deliveries exhausted in a row,
   * with the strikes kept or late and without those lost, are ten or more.
   */
  lemma DisabledAtTen(s: State)
    requires Reachable(s) && s.worker.Bumping? && s.worker.ep in s.endpoints
    ensures var ep := s.worker.ep;
            var t := Apply(s, Bump);
            var marks := t.endpoints[ep].marks;
            && (t.worker.Disabling? <==> Trailing(marks) + Kept(marks) + Late(marks) >= 10 + Lost(marks))
            && (t.worker.Disabling? ==> !Apply(t, Disable).endpoints[ep].enabled)
  {
    ReachableInv(s);
    BumpKeepsEndpoints(s);
    var t := Apply(s, Bump);
    assert EndpointOk(t.endpoints[s.worker.ep], s.worker.ep, t.worker);
  }
}
