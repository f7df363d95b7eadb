/**
 * The delivery worker's tick and the two endpoint handlers as they are written, over mutable
 * tables, with handlers running at every await. Each is proved to be a run of WebhookSpec.
 */
module WebhookDelivery {
  import opened Wrappers
  import opened WebhookSpec
  import opened WebhookTheorems

  /** The handlers' events at the k-th await; past its end nothing interferes. */
  type Schedule = seq<seq<Event>>

  function Turn(sched: Schedule, k: nat): seq<Event> {
    if k < |sched| then sched[k] else []
  }

  predicate Scheduled(e: Event, sched: Schedule) {
    exists k :: 0 <= k < |sched| && e in sched[k]
  }

  /** The worker's own statements and attempts in a run, in order. */
  function Own(trace: seq<Event>): seq<Event> {
    if trace == [] then []
    else Own(trace[..|trace| - 1]) + if ByWorker(trace[|trace| - 1]) then [trace[|trace| - 1]] else []
  }

  lemma OwnAppend(trace: seq<Event>, e: Event)
    ensures Own(trace + [e]) == Own(trace) + if ByWorker(e) then [e] else []
  {
    assert (trace + [e])[..|trace|] == trace;
  }

  /** The run goes on from where it was, and the worker's part of it by `own`; the rest is the schedule's. */
  ghost predicate Continues(was: seq<Event>, now: seq<Event>, own: seq<Event>, sched: Schedule) {
    && was <= now && Own(now) == Own(was) + own
    && forall i :: |was| <= i < |now| ==> ByWorker(now[i]) || Scheduled(now[i], sched)
  }

  lemma ContinuesBy(a: seq<Event>, b: seq<Event>, own: seq<Event>, e: Event, sched: Schedule)
    requires Continues(a, b, own, sched) && (ByWorker(e) || Scheduled(e, sched))
    ensures Continues(a, b + [e], own + if ByWorker(e) then [e] else [], sched)
  {
    OwnAppend(b, e);
  }

  lemma ContinuesOn(a: seq<Event>, b: seq<Event>, c: seq<Event>, own: seq<Event>, more: seq<Event>, sched: Schedule)
    requires Continues(a, b, own, sched) && Continues(b, c, more, sched)
    ensures Continues(a, c, own + more, sched)
  {
    forall i | |a| <= i < |c| ensures ByWorker(c[i]) || Scheduled(c[i], sched) {
      if i < |b| {
        assert c[i] == b[i];
      }
    }
  }

  /** The statements of the first n rows. */
  ghost function AllSteps(jobs: seq<Job>, answers: seq<bool>, faults: seq<Fault>, tenths: seq<bool>, n: nat): seq<Event>
    requires n <= |jobs| == |answers| == |faults| == |tenths|
  {
    if n == 0 then []
    else AllSteps(jobs, answers, faults, tenths, n - 1) + Steps(jobs[n - 1], answers[n - 1], faults[n - 1], tenths[n - 1])
  }

  lemma AllStepsSame(jobs: seq<Job>, answers: seq<bool>, faults: seq<Fault>, tenths: seq<bool>, others: seq<bool>, n: nat)
    requires n <= |jobs| == |answers| == |faults| == |tenths| == |others| && tenths[..n] == others[..n]
    ensures AllSteps(jobs, answers, faults, tenths, n) == AllSteps(jobs, answers, faults, others, n)
  {
    if n > 0 {
      assert tenths[..n - 1] == tenths[..n][..n - 1] && others[..n - 1] == others[..n][..n - 1];
      assert tenths[n - 1] == tenths[..n][n - 1] && others[n - 1] == others[..n][n - 1];
      AllStepsSame(jobs, answers, faults, tenths, others, n - 1);
    }
  }

  // ----- one row of the batch

  /** Where the database fails the tick, if it does: at the delivery, the strikes or the switch-off. */
  datatype Fault = Sound | MarkFails | StrikesFail | SwitchFails

  predicate Exhausts(job: Job, ok: bool) {
    !ok && job.attempts + 1 >= MAX_ATTEMPTS
  }

  /** The statements after a tenth strike. */
  function SwitchSteps(fault: Fault): seq<Event> {
    if fault.SwitchFails? then [Die] else [Disable]
  }

  /** The statements on the endpoint's strikes. */
  function StrikeSteps(ok: bool, fault: Fault, tenth: bool): seq<Event> {
    if fault.StrikesFail? then [Die]
    else if ok then [Clear]
    else if tenth then [Bump] + SwitchSteps(fault)
    else [Bump]
  }

  /** The statements after an answer. */
  function AnswerSteps(job: Job, ok: bool, fault: Fault, tenth: bool): seq<Event> {
    if ok || Exhausts(job, ok) then [Respond(ok)] + StrikeSteps(ok, fault, tenth) else [Respond(ok)]
  }

  /** The statements of one row, given whether its strike is a tenth. */
  function Steps(job: Job, ok: bool, fault: Fault, tenth: bool): seq<Event> {
    [Send] + if fault.MarkFails? then [Die] else AnswerSteps(job, ok, fault, tenth)
  }

  predicate BreaksOff(job: Job, ok: bool, fault: Fault, tenth: bool) {
    match fault
    case Sound => false
    case MarkFails => true
    case StrikesFail => ok || Exhausts(job, ok)
    case SwitchFails => Exhausts(job, ok) && tenth
  }

  /** The endpoint's row after the statements on its strikes. */
  function Settled(row: Endpoint, ok: bool, fault: Fault): Endpoint {
    if fault.StrikesFail? then row.(marks := row.marks + [if ok then ClearLost else BumpLost])
    else if ok then ClearedOf(row)
    else if row.failures + 1 < DISABLE_AFTER_FAILURES then BumpedOf(row)
    else SwitchedOff(BumpedOf(row), fault)
  }

  function SwitchedOff(row: Endpoint, fault: Fault): Endpoint {
    if fault.SwitchFails? then row.(marks := row.marks + [SwitchLost]) else row.(enabled := false)
  }

  function SettledRows(rows: map<Id, Endpoint>, ep: Id, ok: bool, fault: Fault): map<Id, Endpoint> {
    if ep in rows then rows[ep := Settled(rows[ep], ok, fault)] else rows
  }

  /** The endpoint's row after one undisturbed attempt. */
  function Struck(row: Endpoint, job: Job, ok: bool, fault: Fault): Endpoint {
    if fault.MarkFails? || (!ok && !Exhausts(job, ok)) then row
    else Settled(row.(marks := row.marks + [if ok then Answered else Exhausted]), ok, fault)
  }

  function StruckRows(rows: map<Id, Endpoint>, job: Job, ok: bool, fault: Fault): map<Id, Endpoint> {
    if job.endpoint in rows then rows[job.endpoint := Struck(rows[job.endpoint], job, ok, fault)] else rows
  }

  /** The endpoints after the first i rows of an undisturbed batch. */
  function StruckInTurn(rows: map<Id, Endpoint>, jobs: seq<Job>, answers: seq<bool>, faults: seq<Fault>, i: nat): map<Id, Endpoint>
    requires i <= |jobs| == |answers| == |faults|
  {
    if i == 0 then rows else StruckRows(StruckInTurn(rows, jobs, answers, faults, i - 1), jobs[i - 1], answers[i - 1], faults[i - 1])
  }

  lemma HandlersLeaveWorker(s: State, e: Event)
    requires Enabled(s, e) && !ByWorker(e)
    ensures Apply(s, e).worker == s.worker
  {
  }

  /** The delivery table after one answer. */
  function AnsweredRows(rows: map<Id, Delivery>, job: Job, start: int, ok: bool, now: int): map<Id, Delivery> {
    if job.id in rows then rows[job.id := Answer(rows[job.id], job, start, ok, now)] else rows
  }

  /** The delivery table after one row of an undisturbed batch. */
  function TriedRows(rows: map<Id, Delivery>, job: Job, ok: bool, fault: Fault, now: int): map<Id, Delivery> {
    if fault.MarkFails? then rows else AnsweredRows(rows, job, now, ok, now)
  }

  /** The row an undisturbed attempt leaves. */
  function Attempted(row: Delivery, d: Id, ok: bool, fault: Fault, now: int): Delivery {
    if fault.MarkFails? then row else Answer(row, Job(d, row.endpoint, row.attempts), now, ok, now)
  }

  /** The first i rows of the batch have had their undisturbed attempt, and nothing else has changed. */
  ghost predicate Served(was: map<Id, Delivery>, rows: map<Id, Delivery>, batch: seq<Id>, answers: seq<bool>,
                         faults: seq<Fault>, i: nat, now: int)
    requires i <= |batch| == |answers| == |faults|
  {
    && rows.Keys == was.Keys
    && (forall j :: 0 <= j < i ==>
          batch[j] in was && rows[batch[j]] == Attempted(was[batch[j]], batch[j], answers[j], faults[j], now))
    && (forall d <- rows :: d !in batch[..i] ==> rows[d] == was[d])
  }

  predicate Distinct(batch: seq<Id>) {
    forall j, k :: 0 <= j < k < |batch| ==> batch[j] != batch[k]
  }

  lemma ServedStep(was: map<Id, Delivery>, rows: map<Id, Delivery>, batch: seq<Id>, answers: seq<bool>,
                   faults: seq<Fault>, i: nat, now: int, job: Job)
    requires i < |batch| == |answers| == |faults| && Served(was, rows, batch, answers, faults, i, now)
    requires Distinct(batch) && batch[i] in was && job == Job(batch[i], was[batch[i]].endpoint, was[batch[i]].attempts)
    ensures Served(was, TriedRows(rows, job, answers[i], faults[i], now), batch, answers, faults, i + 1, now)
  {
    assert batch[..i + 1] == batch[..i] + [batch[i]];
    assert batch[i] !in batch[..i];
  }

  /** The tick up to its n-th row. */
  ghost function TickSteps(batch: seq<Id>, jobs: seq<Job>, answers: seq<bool>, faults: seq<Fault>, tenths: seq<bool>,
                           n: nat): seq<Event>
    requires n <= |jobs| == |answers| == |faults| == |tenths|
  {
    [Fetch(batch)] + AllSteps(jobs, answers, faults, tenths, n)
  }

  ghost function WholeTick(batch: seq<Id>, jobs: seq<Job>, answers: seq<bool>, faults: seq<Fault>, tenths: seq<bool>,
                           n: nat, broke: bool): seq<Event>
    requires n <= |jobs| == |answers| == |faults| == |tenths|
  {
    var rows := TickSteps(batch, jobs, answers, faults, tenths, n);
    if broke then rows else rows + [Finish]
  }

  /** The first n rows are served; the last of them broke the tick off, or none did. */
  ghost predicate StopsAt(jobs: seq<Job>, answers: seq<bool>, faults: seq<Fault>, tenths: seq<bool>, n: nat, broke: bool) {
    && n <= |jobs| == |answers| == |faults| == |tenths| && (broke ==> n > 0)
    && forall i :: 0 <= i < n ==> (BreaksOff(jobs[i], answers[i], faults[i], tenths[i]) <==> broke && i == n - 1)
  }

  /** The jobs the query returned for the batch. */
  ghost predicate JobsFor(rows: map<Id, Delivery>, batch: seq<Id>, jobs: seq<Job>) {
    && |jobs| == |batch| && Distinct(batch)
    && forall i :: 0 <= i < |batch| ==>
         batch[i] in rows && jobs[i] == Job(batch[i], rows[batch[i]].endpoint, rows[batch[i]].attempts)
  }

  /** The tick has served the first n rows: its statements, where it stops, and its effect when undisturbed. */
  ghost predicate Ticked(start: seq<Event>, was: State, trace: seq<Event>, now: State, batch: seq<Id>, jobs: seq<Job>,
                         answers: seq<bool>, faults: seq<Fault>, sched: Schedule, tenths: seq<bool>, n: nat, broke: bool)
    requires n <= |batch| == |jobs| == |answers| == |faults| == |tenths|
  {
    && StopsAt(jobs, answers, faults, tenths, n, broke)
    && Continues(start, trace, TickSteps(batch, jobs, answers, faults, tenths, n), sched)
    && (sched == [] ==>
          && now.now == was.now && Served(was.deliveries, now.deliveries, batch, answers, faults, n, was.now)
          && now.endpoints == StruckInTurn(was.endpoints, jobs, answers, faults, n))
  }

  lemma TickGoesOn(start: seq<Event>, was: seq<Event>, now: seq<Event>, batch: seq<Id>, jobs: seq<Job>, answers: seq<bool>,
                   faults: seq<Fault>, tenths: seq<bool>, n: nat, tenth: bool, sched: Schedule)
    requires n < |jobs| == |answers| == |faults| == |tenths|
    requires Continues(start, was, TickSteps(batch, jobs, answers, faults, tenths, n), sched)
    requires Continues(was, now, Steps(jobs[n], answers[n], faults[n], tenth), sched)
    ensures Continues(start, now, TickSteps(batch, jobs, answers, faults, tenths[n := tenth], n + 1), sched)
  {
    var steps := Steps(jobs[n], answers[n], faults[n], tenth);
    ContinuesOn(start, was, now, TickSteps(batch, jobs, answers, faults, tenths, n), steps, sched);
    AllStepsSame(jobs, answers, faults, tenths, tenths[n := tenth], n);
    assert TickSteps(batch, jobs, answers, faults, tenths, n) + steps
        == TickSteps(batch, jobs, answers, faults, tenths[n := tenth], n + 1);
  }

  lemma TickedOn(start: seq<Event>, was: State, trace: seq<Event>, now: State, batch: seq<Id>, jobs: seq<Job>,
                 answers: seq<bool>, faults: seq<Fault>, sched: Schedule, tenths: seq<bool>, n: nat, tenth: bool,
                 trace': seq<Event>, now': State)
    requires JobsFor(was.deliveries, batch, jobs) && n < |batch| == |answers| == |faults| == |tenths|
    requires Ticked(start, was, trace, now, batch, jobs, answers, faults, sched, tenths, n, false)
    requires Continues(trace, trace', Steps(jobs[n], answers[n], faults[n], tenth), sched)
    requires sched == [] ==>
               && now'.now == now.now
               && now'.deliveries == TriedRows(now.deliveries, jobs[n], answers[n], faults[n], now.now)
               && now'.endpoints == StruckRows(now.endpoints, jobs[n], answers[n], faults[n])
    ensures var broke := BreaksOff(jobs[n], answers[n], faults[n], tenth);
            Ticked(start, was, trace', now', batch, jobs, answers, faults, sched, tenths[n := tenth], n + 1, broke)
  {
    TickGoesOn(start, trace, trace', batch, jobs, answers, faults, tenths, n, tenth, sched);
    if sched == [] {
      ServedStep(was.deliveries, now.deliveries, batch, answers, faults, n, was.now, jobs[n]);
    }
  }

  class WebhookTables {
    var now: int
    var deliveries: map<Id, Delivery>
    var endpoints: map<Id, Endpoint>
    var worker: Worker
    var deliveryIds: set<Id>
    var endpointIds: set<Id>
    ghost var trace: seq<Event>

    function Now(): State
      reads this
    {
      State(now, deliveries, endpoints, worker, deliveryIds, endpointIds)
    }

    /** The tables are what the events recorded so far lead to. */
    ghost predicate Valid()
      reads this
    {
      Runs(EMPTY, trace) && After(EMPTY, trace) == Now()
    }

    constructor ()
      ensures Valid() && Now() == EMPTY
    {
      now, deliveries, endpoints, worker := 0, map[], map[], Idle;
      deliveryIds, endpointIds := {}, {};
      trace := [];
    }

    lemma ValidInv()
      requires Valid()
      ensures Inv(Now())
    {
      assert Reachable(Now());
      ReachableInv(Now());
    }

    /** Notes the event a method has just carried out. */
    ghost method Note(before: State, e: Event)
      requires Runs(EMPTY, trace) && After(EMPTY, trace) == before && Enabled(before, e) && Now() == Apply(before, e)
      modifies this`trace
      ensures Valid() && trace == old(trace) + [e]
    {
      RunsAppend(EMPTY, trace, e);
      trace := trace + [e];
    }

    /** One event of a handler or the clock. */
    method Perform(e: Event)
      requires Valid() && Enabled(Now(), e) && !ByWorker(e)
      modifies this
      ensures Valid() && Now() == Apply(old(Now()), e) && trace == old(trace) + [e]
    {
      ghost var before := Now();
      var t := Apply(Now(), e);
      now, deliveries, endpoints, worker := t.now, t.deliveries, t.endpoints, t.worker;
      deliveryIds, endpointIds := t.deliveryIds, t.endpointIds;
      Note(before, e);
    }

    /** The k-th await: handlers run, the tick stays where it is. */
    method Await(sched: Schedule, k: nat)
      requires Valid()
      modifies this
      ensures Valid() && worker == old(worker) && Continues(old(trace), trace, [], sched)
      ensures sched == [] ==> unchanged(this)
    {
      var others := Turn(sched, k);
      for i := 0 to |others|
        invariant Valid() && worker == old(worker) && Continues(old(trace), trace, [], sched)
        invariant i == 0 ==> unchanged(this)
      {
        if Enabled(Now(), others[i]) && !ByWorker(others[i]) {
          HandlersLeaveWorker(Now(), others[i]);
          ContinuesBy(old(trace), trace, [], others[i], sched);
          Perform(others[i]);
        }
      }
    }

    // ----- src/routes/outgoingWebhooks.ts

    /** PATCH /webhook-endpoints/:id */
    method PatchEndpoint(ep: Id, enabled: Option<bool>) returns (found: bool)
      requires Valid()
      modifies this`endpoints, this`trace
      ensures Valid() && Now() == Patched(old(Now()), ep, enabled)
      ensures found <==> ep in old(endpoints)
    {
      ghost var before := Now();
      found := ep in endpoints;
      if found && enabled.Some? {
        var row := endpoints[ep];
        if enabled.value {
          row := row.(failures := 0, marks := row.marks + [Reenabled]);
        }
        endpoints := endpoints[ep := row.(enabled := enabled.value)];
      }
      Note(before, Patch(ep, enabled));
    }

    /** POST /webhook-deliveries/:id/redeliver */
    method RedeliverDelivery(d: Id) returns (ok: bool)
      requires Valid()
      modifies this`deliveries, this`trace
      ensures Valid() && Now() == Redelivered(old(Now()), d)
      ensures ok <==> d in old(deliveries) && old(deliveries)[d].status == Failed
      ensures ok ==> d in deliveries && deliveries[d].status == Pending && deliveries[d].attempts == 0
    {
      ghost var before := Now();
      ok := d in deliveries && deliveries[d].status == Failed;
      if ok {
        deliveries := deliveries[d := deliveries[d].(status := Pending, attempts := 0, nextAt := now, sends := [])];
      }
      Note(before, Redeliver(d));
    }

    // ----- the statements of a tick

    method SelectDue(batch: seq<Id>)
      requires Valid() && worker.Idle? && IsBatch(Now(), batch)
      modifies this`worker, this`trace
      ensures Valid() && worker == Ready(JobsOf(old(Now()), batch)) && trace == old(trace) + [Fetch(batch)]
    {
      ghost var before := Now();
      worker := Ready(JobsOf(Now(), batch));
      Note(before, Fetch(batch));
    }

    method AttemptDelivery()
      requires Valid() && worker.Ready? && worker.queue != []
      modifies this`worker, this`trace
      ensures Valid() && worker == Sending(old(worker).queue[0], now, old(worker).queue[1..])
      ensures trace == old(trace) + [Send]
    {
      ghost var before := Now();
      worker := Sending(worker.queue[0], now, worker.queue[1..]);
      Note(before, Send);
    }

    method MarkDelivered()
      requires Valid() && worker.Sending?
      modifies this`deliveries, this`endpoints, this`worker, this`trace
      ensures Valid() && trace == old(trace) + [Respond(true)]
      ensures deliveries == AnsweredRows(old(deliveries), old(worker).job, old(worker).start, true, now)
      ensures endpoints == MarkEndpoint(old(Now()), old(worker).job.endpoint, Answered).endpoints
      ensures worker == Clearing(old(worker).job.endpoint, old(worker).queue)
    {
      ghost var before := Now();
      var Sending(job, start, queue) := worker;
      var attempts := job.attempts + 1;
      if job.id in deliveries {
        var row := deliveries[job.id];
        deliveries := deliveries[job.id := row.(status := Delivered, attempts := attempts, sends := row.sends + [start])];
      }
      Remember(job.endpoint, Answered);
      worker := Clearing(job.endpoint, queue);
      Note(before, Respond(true));
    }

    method MarkUndelivered() returns (exhausted: bool)
      requires Valid() && worker.Sending?
      modifies this`deliveries, this`endpoints, this`worker, this`trace
      ensures Valid() && trace == old(trace) + [Respond(false)]
      ensures deliveries == AnsweredRows(old(deliveries), old(worker).job, old(worker).start, false, now)
      ensures exhausted <==> old(worker).job.attempts + 1 >= MAX_ATTEMPTS
      ensures endpoints == if exhausted then MarkEndpoint(old(Now()), old(worker).job.endpoint, Exhausted).endpoints
                           else old(endpoints)
      ensures worker == if exhausted then Bumping(old(worker).job.endpoint, old(worker).queue) else Ready(old(worker).queue)
    {
      ghost var before := Now();
      var Sending(job, start, queue) := worker;
      var attempts := job.attempts + 1;
      exhausted := attempts >= MAX_ATTEMPTS;
      var wait := if exhausted then 0 else Backoff(attempts);
      if job.id in deliveries {
        var row := deliveries[job.id];
        deliveries := deliveries[job.id := row.(status := if exhausted then Failed else Pending, attempts := attempts,
                                                nextAt := now + wait, sends := row.sends + [start])];
      }
      if exhausted {
        Remember(job.endpoint, Exhausted);
        worker := Bumping(job.endpoint, queue);
      } else {
        worker := Ready(queue);
      }
      Note(before, Respond(false));
    }

    /** History only: no statement of the tick. */
    method Remember(ep: Id, m: Mark)
      modifies this`endpoints
      ensures endpoints == MarkEndpoint(old(Now()), ep, m).endpoints
    {
      if ep in endpoints {
        endpoints := endpoints[ep := endpoints[ep].(marks := endpoints[ep].marks + [m])];
      }
    }

    method ClearStrikes()
      requires Valid() && worker.Clearing?
      modifies this`endpoints, this`worker, this`trace
      ensures Valid() && trace == old(trace) + [Clear]
      ensures worker == Ready(old(worker).queue)
      ensures var ep := old(worker).ep;
              endpoints == if ep in old(endpoints) then old(endpoints)[ep := ClearedOf(old(endpoints)[ep])] else old(endpoints)
    {
      ghost var before := Now();
      var ep := worker.ep;
      if ep in endpoints {
        endpoints := endpoints[ep := endpoints[ep].(failures := 0, marks := endpoints[ep].marks + [Cleared])];
      }
      worker := Ready(worker.queue);
      Note(before, Clear);
    }

    method BumpStrikes() returns (failures: nat)
      requires Valid() && worker.Bumping?
      modifies this`endpoints, this`worker, this`trace
      ensures Valid() && trace == old(trace) + [Bump]
      ensures worker == if failures >= DISABLE_AFTER_FAILURES then Disabling(old(worker).ep, old(worker).queue)
                        else Ready(old(worker).queue)
      ensures var ep := old(worker).ep;
              && endpoints == (if ep in old(endpoints) then old(endpoints)[ep := BumpedOf(old(endpoints)[ep])] else old(endpoints))
              && failures == (if ep in old(endpoints) then old(endpoints)[ep].failures + 1 else 0)
    {
      ghost var before := Now();
      var Bumping(ep, queue) := worker;
      failures := 0;
      if ep in endpoints {
        failures := endpoints[ep].failures + 1;
        endpoints := endpoints[ep := endpoints[ep].(failures := failures, marks := endpoints[ep].marks + [Bumped])];
      }
      worker := if failures >= DISABLE_AFTER_FAILURES then Disabling(ep, queue) else Ready(queue);
      Note(before, Bump);
    }

    method SwitchOff()
      requires Valid() && worker.Disabling?
      modifies this`endpoints, this`worker, this`trace
      ensures Valid() && trace == old(trace) + [Disable]
      ensures worker == Ready(old(worker).queue)
      ensures var ep := old(worker).ep;
              endpoints == if ep in old(endpoints) then old(endpoints)[ep := old(endpoints)[ep].(enabled := false)]
                           else old(endpoints)
    {
      ghost var before := Now();
      var ep := worker.ep;
      if ep in endpoints && endpoints[ep].enabled {
        endpoints := endpoints[ep := endpoints[ep].(enabled := false)];
      }
      worker := Ready(worker.queue);
      Note(before, Disable);
    }

    method EndTick()
      requires Valid() && worker == Ready([])
      modifies this`worker, this`trace
      ensures Valid() && worker.Idle? && trace == old(trace) + [Finish]
    {
      ghost var before := Now();
      worker := Idle;
      Note(before, Finish);
    }

    /** A statement throws: no table changes, and the rest of the tick never runs. */
    method BreakOff()
      requires Valid() && !worker.Idle?
      modifies this`endpoints, this`worker, this`trace
      ensures Valid() && worker.Idle? && trace == old(trace) + [Die]
      ensures endpoints == Died(old(Now())).endpoints
    {
      ghost var before := Now();
      match worker {
        case Clearing(ep, _) => Remember(ep, ClearLost);
        case Bumping(ep, _) => Remember(ep, BumpLost);
        case Disabling(ep, _) => Remember(ep, SwitchLost);
        case _ =>
      }
      worker := Idle;
      Note(before, Die);
    }

    // ----- the tick

    /** After a tenth strike. */
    method SwitchOffUnlessFailing(fault: Fault, sched: Schedule, k: nat) returns (done: bool)
      requires Valid() && worker.Disabling?
      modifies this
      ensures Valid() && worker == if done then Ready(old(worker).queue) else Idle
      ensures done <==> !fault.SwitchFails?
      ensures Continues(old(trace), trace, SwitchSteps(fault), sched)
      ensures sched == [] ==> now == old(now) && deliveries == old(deliveries)
      ensures sched == [] ==>
        var ep := old(worker).ep;
        endpoints == if ep in old(endpoints) then old(endpoints)[ep := SwitchedOff(old(endpoints)[ep], fault)] else old(endpoints)
    {
      Await(sched, k);
      done := !fault.SwitchFails?;
      ContinuesBy(old(trace), trace, [], if done then Disable else Die, sched);
      if done {
        SwitchOff();
      } else {
        BreakOff();
      }
    }

    /** A strike, and the switch-off when it is a tenth. */
    method Strike(fault: Fault, sched: Schedule, k: nat) returns (done: bool, tenth: bool)
      requires Valid() && worker.Bumping? && !fault.StrikesFail?
      modifies this
      ensures Valid() && worker == if done then Ready(old(worker).queue) else Idle
      ensures done <==> !(fault.SwitchFails? && tenth)
      ensures Continues(old(trace), trace, StrikeSteps(false, fault, tenth), sched)
      ensures sched == [] ==> now == old(now) && deliveries == old(deliveries)
      ensures sched == [] ==> endpoints == SettledRows(old(endpoints), old(worker).ep, false, fault)
    {
      ContinuesBy(old(trace), trace, [], Bump, sched);
      var failures := BumpStrikes();
      tenth := failures >= DISABLE_AFTER_FAILURES;
      done := true;
      if tenth {
        ghost var bumped := trace;
        done := SwitchOffUnlessFailing(fault, sched, k);
        ContinuesOn(old(trace), bumped, trace, [Bump], SwitchSteps(fault), sched);
      }
    }

    /** The statements on the endpoint's strikes, after a delivered or an exhausted attempt. */
    method SettleStrikes(ok: bool, fault: Fault, sched: Schedule, k: nat) returns (done: bool, tenth: bool)
      requires Valid() && (if ok then worker.Clearing? else worker.Bumping?)
      modifies this
      ensures Valid() && worker == if done then Ready(old(worker).queue) else Idle
      ensures done <==> !(fault.StrikesFail? || (fault.SwitchFails? && !ok && tenth))
      ensures Continues(old(trace), trace, StrikeSteps(ok, fault, tenth), sched)
      ensures sched == [] ==> now == old(now) && deliveries == old(deliveries)
      ensures sched == [] ==> endpoints == SettledRows(old(endpoints), old(worker).ep, ok, fault)
    {
      Await(sched, k);
      done, tenth := !fault.StrikesFail?, false;
      ghost var was := trace;
      if fault.StrikesFail? {
        ContinuesBy(old(trace), trace, [], Die, sched);
        BreakOff();
      } else if ok {
        ContinuesBy(old(trace), trace, [], Clear, sched);
        ClearStrikes();
      } else {
        done, tenth := Strike(fault, sched, k + 1);
        ContinuesOn(old(trace), was, trace, [], StrikeSteps(false, fault, tenth), sched);
      }
    }

    /** What an answer does to the row and the endpoint. */
    method TakeAnswer(ok: bool, fault: Fault, sched: Schedule, k: nat) returns (done: bool, tenth: bool)
      requires Valid() && worker.Sending? && !fault.MarkFails?
      modifies this
      ensures Valid() && worker == if done then Ready(old(worker).queue) else Idle
      ensures done <==> !BreaksOff(old(worker).job, ok, fault, tenth)
      ensures Continues(old(trace), trace, AnswerSteps(old(worker).job, ok, fault, tenth), sched)
      ensures sched == [] ==> now == old(now) && deliveries == AnsweredRows(old(deliveries), old(worker).job, old(worker).start, ok, now)
      ensures sched == [] ==> endpoints == StruckRows(old(endpoints), old(worker).job, ok, fault)
    {
      done, tenth := true, false;
      ContinuesBy(old(trace), trace, [], Respond(ok), sched);
      var exhausted := false;
      if ok {
        MarkDelivered();
      } else {
        exhausted := MarkUndelivered();
      }
      if ok || exhausted {
        ghost var marked := trace;
        done, tenth := SettleStrikes(ok, fault, sched, k);
        ContinuesOn(old(trace), marked, trace, [Respond(ok)], StrikeSteps(ok, fault, tenth), sched);
      }
    }

    /**
     * One row of the batch: an attempt, and what its answer does to the row and the endpoint;
     * false when the database broke the tick off.
     */
    method DeliverOne(ok: bool, fault: Fault, sched: Schedule, k: nat) returns (done: bool, tenth: bool)
      requires Valid() && worker.Ready? && worker.queue != []
      modifies this
      ensures Valid() && worker == if done then Ready(old(worker).queue[1..]) else Idle
      ensures done <==> !BreaksOff(old(worker).queue[0], ok, fault, tenth)
      ensures Continues(old(trace), trace, Steps(old(worker).queue[0], ok, fault, tenth), sched)
      ensures sched == [] ==> now == old(now) && deliveries == TriedRows(old(deliveries), old(worker).queue[0], ok, fault, now)
      ensures sched == [] ==> endpoints == StruckRows(old(endpoints), old(worker).queue[0], ok, fault)
      ensures sched == [] && !fault.MarkFails? && old(worker).queue[0].id in old(deliveries) ==>
                var job, row := old(worker).queue[0], deliveries[old(worker).queue[0].id];
                && row.attempts == job.attempts + 1
                && row.status == (if ok then Delivered else if job.attempts + 1 >= 6 then Failed else Pending)
                && (row.status == Pending ==> row.nextAt == now + Wait(job.attempts + 1))
    {
      ghost var job := worker.queue[0];
      ContinuesBy(old(trace), trace, [], Send, sched);
      AttemptDelivery();
      ghost var sent := trace;
      Await(sched, k);
      ContinuesOn(old(trace), sent, trace, [Send], [], sched);
      ghost var was := trace;
      if fault.MarkFails? {
        done, tenth := false, false;
        ContinuesBy(old(trace), trace, [Send], Die, sched);
        BreakOff();
      } else {
        done, tenth := TakeAnswer(ok, fault, sched, k + 1);
        ContinuesOn(old(trace), was, trace, [Send], AnswerSteps(job, ok, fault, tenth), sched);
      }
    }

    /** The loop over the rows fetched in the state `was`. */
    method ServeRows(batch: seq<Id>, ghost jobs: seq<Job>, answers: seq<bool>, faults: seq<Fault>, sched: Schedule,
                     ghost start: seq<Event>, ghost was: State)
        returns (n: nat, broke: bool, ghost tenths: seq<bool>)
      requires Valid() && JobsFor(was.deliveries, batch, jobs) && |answers| == |faults| == |batch| && worker == Ready(jobs)
      requires now == was.now && deliveries == was.deliveries && endpoints == was.endpoints
      requires Continues(start, trace, [Fetch(batch)], sched)
      modifies this
      ensures Valid() && n <= |batch| == |tenths| && worker == if broke then Idle else Ready([])
      ensures (broke || n == |batch|) && Ticked(start, was, trace, Now(), batch, jobs, answers, faults, sched, tenths, n, broke)
    {
      n, broke, tenths := 0, false, seq(|batch|, _ => false);
      while n < |batch| && !broke
        invariant Valid() && n <= |batch| == |tenths|
        invariant worker == if broke then Idle else Ready(jobs[n..])
        invariant Ticked(start, was, trace, Now(), batch, jobs, answers, faults, sched, tenths, n, broke)
        decreases |batch| - n, !broke
      {
        ghost var before, soFar := Now(), trace;
        var done, tenth := DeliverOne(answers[n], faults[n], sched, 3 * n);
        TickedOn(start, was, soFar, before, batch, jobs, answers, faults, sched, tenths, n, tenth, trace, Now());
        tenths := tenths[n := tenth];
        n, broke := n + 1, !done;
      }
    }

    /**
     * processWebhookQueue: fetched rows get exactly one attempt each, in order, whatever the
     * handlers do meanwhile, up to the row at which the database breaks the tick off.
     */
    method ProcessWebhookQueue(batch: seq<Id>, answers: seq<bool>, faults: seq<Fault>, sched: Schedule)
        returns (n: nat, broke: bool, ghost tenths: seq<bool>)
      requires Valid() && worker.Idle? && IsBatch(Now(), batch) && |answers| == |faults| == |batch|
      modifies this
      ensures Valid() && worker.Idle? && n <= |batch| == |tenths| && (broke || n == |batch|)
      ensures StopsAt(JobsOf(old(Now()), batch), answers, faults, tenths, n, broke)
      ensures Continues(old(trace), trace, WholeTick(batch, JobsOf(old(Now()), batch), answers, faults, tenths, n, broke), sched)
      ensures sched == [] ==> now == old(now) && Served(old(deliveries), deliveries, batch, answers, faults, n, now)
      ensures sched == [] ==> endpoints == StruckInTurn(old(endpoints), JobsOf(old(Now()), batch), answers, faults, n)
    {
      ghost var was, start, jobs := Now(), trace, JobsOf(Now(), batch);
      ContinuesBy(start, trace, [], Fetch(batch), sched);
      SelectDue(batch);
      n, broke, tenths := ServeRows(batch, jobs, answers, faults, sched, start, was);
      if !broke {
        ContinuesBy(start, trace, TickSteps(batch, jobs, answers, faults, tenths, n), Finish, sched);
        EndTick();
      }
    }
  }
}
