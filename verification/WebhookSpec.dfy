/**
 * Outgoing webhooks as a machine: the delivery worker of src/scheduler/webhookDelivery.ts, one
 * statement or attempt a step, with the handlers of src/routes/outgoingWebhooks.ts and
 * src/lib/webhooks.ts running in between.
 */
module WebhookSpec {
  import opened Wrappers

  type Id = nat

  const BACKOFF_SECONDS: seq<int> := [10, 60, 300, 1_800, 7_200, 21_600]
  const MAX_ATTEMPTS: nat := 6
  const DISABLE_AFTER_FAILURES: nat := 10
  const BATCH: nat := 50

  datatype Status = Pending | Delivered | Failed

  /** A delivery row; `sends` records when the attempts of the current ladder were made. */
  datatype Delivery = Delivery(endpoint: Id, status: Status, attempts: nat, nextAt: int, sends: seq<int>)

  /** What happened to an endpoint's strike count, in order; the last three are statements a broken-off tick left out. */
  datatype Mark = Exhausted | Bumped | Answered | Cleared | Reenabled | ClearLost | BumpLost | SwitchLost

  datatype Endpoint = Endpoint(enabled: bool, failures: nat, marks: seq<Mark>)

  /** A row as the batch query returned it. */
  datatype Job = Job(id: Id, endpoint: Id, attempts: nat)

  /** Where the worker stands: which statement it is about to issue. */
  datatype Worker =
    | Idle
    | Ready(queue: seq<Job>)
    | Sending(job: Job, start: int, queue: seq<Job>)
    | Clearing(ep: Id, queue: seq<Job>)
    | Bumping(ep: Id, queue: seq<Job>)
    | Disabling(ep: Id, queue: seq<Job>)

  datatype State = State(
    now: int,
    deliveries: map<Id, Delivery>,
    endpoints: map<Id, Endpoint>,
    worker: Worker,
    // every id handed out so far; ids are never used twice
    deliveryIds: set<Id>,
    endpointIds: set<Id>)

  const EMPTY := State(0, map[], map[], Idle, {}, {})

  datatype Event =
    | Advance(to: int)
    // the worker
    | Fetch(batch: seq<Id>)
    | Send
    | Respond(ok: bool)
    | Clear
    | Bump
    | Disable
    | Finish
    // a statement throws or the process dies: the rest of the tick never runs
    | Die
    // the handlers
    | AddEndpoint(ep: Id)
    | Patch(ep: Id, enabled: Option<bool>)
    | DeleteEndpoint(ep: Id)
    | Enqueue(d: Id, ep: Id)
    | Redeliver(d: Id)
    | Prune(d: Id)

  predicate ByWorker(e: Event) {
    e.Fetch? || e.Send? || e.Respond? || e.Clear? || e.Bump? || e.Disable? || e.Finish? || e.Die?
  }

  predicate Due(s: State, d: Id) {
    && d in s.deliveries
    && s.deliveries[d].status == Pending && s.deliveries[d].nextAt <= s.now
    && s.deliveries[d].endpoint in s.endpoints && s.endpoints[s.deliveries[d].endpoint].enabled
  }

  /** An answer of the batch query: due rows, earliest first, at most 50, none left out for a later one. */
  predicate IsBatch(s: State, batch: seq<Id>) {
    && |batch| <= BATCH
    && (forall i :: 0 <= i < |batch| ==> Due(s, batch[i]))
    && (forall i, j :: 0 <= i < j < |batch| ==>
          batch[i] != batch[j] && s.deliveries[batch[i]].nextAt <= s.deliveries[batch[j]].nextAt)
    && (forall d <- s.deliveries :: Due(s, d) && d !in batch ==>
          |batch| == BATCH && s.deliveries[batch[BATCH - 1]].nextAt <= s.deliveries[d].nextAt)
  }

  function JobsOf(s: State, batch: seq<Id>): (jobs: seq<Job>)
    requires forall i :: 0 <= i < |batch| ==> batch[i] in s.deliveries
    ensures |jobs| == |batch|
    ensures forall i :: 0 <= i < |jobs| ==>
              jobs[i] == Job(batch[i], s.deliveries[batch[i]].endpoint, s.deliveries[batch[i]].attempts)
  {
    if batch == [] then []
    else
      var d := s.deliveries[batch[0]];
      [Job(batch[0], d.endpoint, d.attempts)] + JobsOf(s, batch[1..])
  }

  /** `BACKOFF_SECONDS[attempts - 1] ?? BACKOFF_SECONDS[BACKOFF_SECONDS.length - 1]` */
  function Backoff(attempts: nat): int
    requires attempts > 0
  {
    if attempts - 1 < |BACKOFF_SECONDS| then BACKOFF_SECONDS[attempts - 1] else BACKOFF_SECONDS[|BACKOFF_SECONDS| - 1]
  }

  predicate Enabled(s: State, e: Event) {
    match e
    case Advance(to) => to >= s.now
    case Fetch(batch) => s.worker.Idle? && IsBatch(s, batch)
    case Send => s.worker.Ready? && s.worker.queue != []
    case Respond(_) => s.worker.Sending?
    case Clear => s.worker.Clearing?
    case Bump => s.worker.Bumping?
    case Disable => s.worker.Disabling?
    case Finish => s.worker.Ready? && s.worker.queue == []
    case Die => !s.worker.Idle?
    case AddEndpoint(ep) => ep !in s.endpointIds
    case Patch(_, _) => true
    case DeleteEndpoint(_) => true
    case Enqueue(d, ep) => d !in s.deliveryIds && ep in s.endpoints
    case Redeliver(_) => true
    case Prune(d) => d in s.deliveries && s.deliveries[d].status != Pending
  }

  /** `UPDATE webhook_deliveries ... WHERE id = $1`: nothing when the row is gone. */
  function SetDelivery(s: State, d: Id, row: Delivery): State {
    if d in s.deliveries then s.(deliveries := s.deliveries[d := row]) else s
  }

  function SetEndpoint(s: State, ep: Id, row: Endpoint): State {
    if ep in s.endpoints then s.(endpoints := s.endpoints[ep := row]) else s
  }

  function MarkEndpoint(s: State, ep: Id, m: Mark): State {
    if ep in s.endpoints then SetEndpoint(s, ep, s.endpoints[ep].(marks := s.endpoints[ep].marks + [m])) else s
  }

  /** The row after an attempt that began at `start`. */
  function Answer(row: Delivery, job: Job, start: int, ok: bool, now: int): Delivery {
    var attempts := job.attempts + 1;
    var row := row.(attempts := attempts, sends := row.sends + [start]);
    if ok then row.(status := Delivered)
    else if attempts >= MAX_ATTEMPTS then row.(status := Failed, nextAt := now)
    else row.(status := Pending, nextAt := now + Backoff(attempts))
  }

  function Responded(s: State, ok: bool): State
    requires s.worker.Sending?
  {
    var Sending(job, start, queue) := s.worker;
    var t := if job.id in s.deliveries then SetDelivery(s, job.id, Answer(s.deliveries[job.id], job, start, ok, s.now)) else s;
    if ok then MarkEndpoint(t, job.endpoint, Answered).(worker := Clearing(job.endpoint, queue))
    else if job.attempts + 1 >= MAX_ATTEMPTS then MarkEndpoint(t, job.endpoint, Exhausted).(worker := Bumping(job.endpoint, queue))
    else t.(worker := Ready(queue))
  }

  function ClearedOf(row: Endpoint): Endpoint {
    row.(failures := 0, marks := row.marks + [Cleared])
  }

  function BumpedOf(row: Endpoint): Endpoint {
    row.(failures := row.failures + 1, marks := row.marks + [Bumped])
  }

  function ReenabledOf(row: Endpoint): Endpoint {
    row.(enabled := true, failures := 0, marks := row.marks + [Reenabled])
  }

  function BumpedState(s: State): State
    requires s.worker.Bumping?
  {
    var Bumping(ep, queue) := s.worker;
    if ep !in s.endpoints then s.(worker := Ready(queue))
    else
      var row := BumpedOf(s.endpoints[ep]);
      var t := SetEndpoint(s, ep, row);
      t.(worker := if row.failures >= DISABLE_AFTER_FAILURES then Disabling(ep, queue) else Ready(queue))
  }

  function Died(s: State): State {
    var t :=
      match s.worker
      case Clearing(ep, _) => MarkEndpoint(s, ep, ClearLost)
      case Bumping(ep, _) => MarkEndpoint(s, ep, BumpLost)
      case Disabling(ep, _) => MarkEndpoint(s, ep, SwitchLost)
      case _ => s;
    t.(worker := Idle)
  }

  function Patched(s: State, ep: Id, enabled: Option<bool>): State {
    if ep !in s.endpoints || enabled.None? then s
    else if enabled.value then SetEndpoint(s, ep, ReenabledOf(s.endpoints[ep]))
    else SetEndpoint(s, ep, s.endpoints[ep].(enabled := false))
  }

  function Redelivered(s: State, d: Id): State {
    if d in s.deliveries && s.deliveries[d].status == Failed then
      SetDelivery(s, d, s.deliveries[d].(status := Pending, attempts := 0, nextAt := s.now, sends := []))
    else s
  }

  /** The endpoint's rows go with it. */
  function Cascade(deliveries: map<Id, Delivery>, ep: Id): map<Id, Delivery> {
    map d | d in deliveries && deliveries[d].endpoint != ep :: deliveries[d]
  }

  function Apply(s: State, e: Event): State
    requires Enabled(s, e)
  {
    match e
    case Advance(to) => s.(now := to)
    case Fetch(batch) => s.(worker := Ready(JobsOf(s, batch)))
    case Send => s.(worker := Sending(s.worker.queue[0], s.now, s.worker.queue[1..]))
    case Respond(ok) => Responded(s, ok)
    case Clear =>
      var t := if s.worker.ep in s.endpoints then SetEndpoint(s, s.worker.ep, ClearedOf(s.endpoints[s.worker.ep])) else s;
      t.(worker := Ready(s.worker.queue))
    case Bump => BumpedState(s)
    case Disable =>
      var t := if s.worker.ep in s.endpoints
               then SetEndpoint(s, s.worker.ep, s.endpoints[s.worker.ep].(enabled := false)) else s;
      t.(worker := Ready(s.worker.queue))
    case Finish => s.(worker := Idle)
    case Die => Died(s)
    case AddEndpoint(ep) =>
      s.(endpoints := s.endpoints[ep := Endpoint(true, 0, [])], endpointIds := s.endpointIds + {ep})
    case Patch(ep, enabled) => Patched(s, ep, enabled)
    case DeleteEndpoint(ep) =>
      s.(endpoints := s.endpoints - {ep}, deliveries := Cascade(s.deliveries, ep))
    case Enqueue(d, ep) =>
      s.(deliveries := s.deliveries[d := Delivery(ep, Pending, 0, s.now, [])], deliveryIds := s.deliveryIds + {d})
    case Redeliver(d) => Redelivered(s, d)
    case Prune(d) => s.(deliveries := s.deliveries - {d})
  }

  ghost predicate Runs(s: State, es: seq<Event>)
    decreases |es|
  {
    es == [] || (Enabled(s, es[0]) && Runs(Apply(s, es[0]), es[1..]))
  }

  ghost function After(s: State, es: seq<Event>): State
    requires Runs(s, es)
    decreases |es|
  {
    if es == [] then s else After(Apply(s, es[0]), es[1..])
  }

  ghost predicate Reachable(s: State) {
    exists es :: Runs(EMPTY, es) && After(EMPTY, es) == s
  }

  // ----- rows

  /** Attempts of one ladder are at least the backoff apart. */
  ghost predicate Spaced(sends: seq<int>) {
    forall i :: 0 <= i < |sends| - 1 ==> sends[i] + Backoff(i + 1) <= sends[i + 1]
  }

  ghost predicate RowOk(d: Delivery) {
    && (d.status == Pending ==> d.attempts < MAX_ATTEMPTS)
    && (d.status == Failed ==> d.attempts == MAX_ATTEMPTS)
    && (d.status == Delivered ==> 1 <= d.attempts <= MAX_ATTEMPTS)
    && |d.sends| == d.attempts
    && Spaced(d.sends)
    && (d.status == Pending && d.attempts > 0 ==> d.sends[d.attempts - 1] + Backoff(d.attempts) <= d.nextAt)
  }

  /** A fetched row is still as the query returned it, unless it is gone. */
  ghost predicate JobOk(s: State, job: Job, at: int) {
    && job.attempts < MAX_ATTEMPTS
    && job.id in s.deliveryIds && job.endpoint in s.endpointIds
    && (job.id in s.deliveries ==>
          var d := s.deliveries[job.id];
          d.status == Pending && d.attempts == job.attempts && d.endpoint == job.endpoint && d.nextAt <= at)
  }

  ghost predicate QueueOk(s: State, queue: seq<Job>) {
    && (forall i :: 0 <= i < |queue| ==> JobOk(s, queue[i], s.now))
    && (forall i, j :: 0 <= i < j < |queue| ==> queue[i].id != queue[j].id)
  }

  ghost predicate WorkerOk(s: State) {
    match s.worker
    case Idle => true
    case Ready(queue) => QueueOk(s, queue)
    case Sending(job, start, queue) =>
      && QueueOk(s, queue) && JobOk(s, job, start) && start <= s.now
      && (forall i :: 0 <= i < |queue| ==> queue[i].id != job.id)
    case _ => QueueOk(s, s.worker.queue) && s.worker.ep in s.endpointIds
  }

  ghost predicate RowsOk(s: State) {
    && s.deliveries.Keys <= s.deliveryIds && s.endpoints.Keys <= s.endpointIds
    && (forall d <- s.deliveries :: RowOk(s.deliveries[d]) && s.deliveries[d].endpoint in s.endpoints)
  }

  // ----- strikes

  /** Deliveries exhausted since the endpoint last answered or was re-enabled. */
  function Trailing(marks: seq<Mark>): nat {
    if marks == [] then 0
    else
      var before := marks[..|marks| - 1];
      match marks[|marks| - 1]
      case Exhausted => Trailing(before) + 1
      case Answered => 0
      case Reenabled => 0
      case _ => Trailing(before)
  }

  /** Strikes booked since the count was last cleared. */
  function Count(marks: seq<Mark>): nat {
    if marks == [] then 0
    else
      var before := marks[..|marks| - 1];
      match marks[|marks| - 1]
      case Bumped => Count(before) + 1
      case Cleared => 0
      case Reenabled => 0
      case _ => Count(before)
  }

  /** Exhausted deliveries of the trailing run whose tick broke off before the strike. */
  function Lost(marks: seq<Mark>): nat {
    if marks == [] then 0
    else
      var before := marks[..|marks| - 1];
      match marks[|marks| - 1]
      case BumpLost => Lost(before) + if LastMark(before) == Some(Reenabled) then 0 else 1
      case Answered => 0
      case Reenabled => 0
      case _ => Lost(before)
  }

  /** Strikes that stand although the endpoint has answered, because the tick broke off before clearing them. */
  function Kept(marks: seq<Mark>): nat {
    if marks == [] then 0
    else
      var before := marks[..|marks| - 1];
      match marks[|marks| - 1]
      case ClearLost => Count(before)
      case Cleared => 0
      case Reenabled => 0
      case _ => Kept(before)
  }

  /** Whether a standing strike was booked for a delivery exhausted before the last re-enabling. */
  predicate LateStrike(marks: seq<Mark>) {
    marks != [] &&
    var before := marks[..|marks| - 1];
    match marks[|marks| - 1]
    case Bumped => LateStrike(before) || LastMark(before) == Some(Reenabled)
    case ClearLost => false
    case Cleared => false
    case Reenabled => false
    case _ => LateStrike(before)
  }

  /** Whether a tick broke off between a tenth strike and the switch-off, and the strikes still stand. */
  predicate Missed(marks: seq<Mark>) {
    marks != [] &&
    var before := marks[..|marks| - 1];
    match marks[|marks| - 1]
    case SwitchLost => Missed(before) || LastMark(before) == Some(Bumped)
    case Cleared => false
    case Reenabled => false
    case _ => Missed(before)
  }

  function Late(marks: seq<Mark>): nat {
    if LateStrike(marks) then 1 else 0
  }

  function LastMark(marks: seq<Mark>): Option<Mark> {
    if marks == [] then None else Some(marks[|marks| - 1])
  }

  predicate Standing(w: Worker, ep: Id) {
    match w
    case Clearing(at, _) => at == ep
    case Bumping(at, _) => at == ep
    case Disabling(at, _) => at == ep
    case _ => false
  }

  /** Strikes booked or lost are those due, kept or late. */
  predicate Accounted(marks: seq<Mark>, due: nat) {
    Count(marks) + Lost(marks) + due == Trailing(marks) + Kept(marks) + Late(marks)
  }

  ghost predicate EndpointOk(row: Endpoint, ep: Id, w: Worker) {
    && row.failures == Count(row.marks)
    && (row.enabled && !(w.Disabling? && w.ep == ep) ==> (row.failures >= DISABLE_AFTER_FAILURES <==> Missed(row.marks)))
    && if !Standing(w, ep) then
         Accounted(row.marks, 0)
       else
         match w
         case Bumping(_, _) =>
           LastMark(row.marks) == Some(Reenabled) || (LastMark(row.marks) == Some(Exhausted) && Accounted(row.marks, 1))
         case Clearing(_, _) => Trailing(row.marks) == 0 && Lost(row.marks) == 0
         case _ =>
           && Accounted(row.marks, 0)
           && (LastMark(row.marks) == Some(Reenabled)
               || (LastMark(row.marks) == Some(Bumped) && row.failures >= DISABLE_AFTER_FAILURES))
  }

  ghost predicate EndpointsOk(s: State) {
    forall ep <- s.endpoints :: EndpointOk(s.endpoints[ep], ep, s.worker)
  }

  ghost predicate Inv(s: State) {
    RowsOk(s) && WorkerOk(s) && EndpointsOk(s)
  }
}
