/** captureError as it is written, over the mutable table, with other calls running between its two queries. */
module ErrorTracking {
  import opened Wrappers
  import opened AlertThrottle

  /** Which of the two queries fails, if any; the catch swallows it. */
  datatype Luck = AllWell | UpsertFails | CountFails

  /** The step ends this call. */
  predicate Ends(e: Event, me: CallId) {
    (e.Check? || e.Lose?) && e.call == me
  }

  /** Events of others: of the given list, and none that ends this call. */
  predicate OfOthers(es: seq<Event>, others: seq<Event>, me: CallId) {
    forall e <- es :: e in others && !Ends(e, me)
  }

  /** What one call adds to the run, given whether its upsert claims. */
  function OwnPart(me: CallId, fp: Fingerprint, source: Source, luck: Luck, between: seq<Event>, claims: bool): seq<Event> {
    match luck
    case UpsertFails => []
    case CountFails => [Capture(me, fp, source)] + if claims then between + [Lose(me)] else []
    case AllWell => [Capture(me, fp, source)] + if claims then between + [Check(me)] else []
  }

  lemma Regroup(was: seq<Event>, e: Event, rest: seq<Event>)
    ensures was + [e] + rest == was + ([e] + rest)
  {
  }

  lemma OthersLeaveMe(s: State, e: Event, me: CallId)
    requires Enabled(s, e) && me in s.waiting && !Ends(e, me)
    ensures me in Apply(s, e).waiting && Apply(s, e).waiting[me] == s.waiting[me]
  {
  }

  class ErrorEvents {
    var now: int
    var rows: map<Fingerprint, Row>
    // calls between their two queries, and the histories of AlertThrottle
    var waiting: map<CallId, Claim>
    var marks: seq<Mark>
    var sent: seq<Sent>
    ghost var trace: seq<Event>

    function Now(): State
      reads this
    {
      State(now, rows, waiting, marks, sent)
    }

    /** The table is what the events recorded so far lead to. */
    ghost predicate Valid()
      reads this
    {
      Runs(EMPTY, trace) && After(EMPTY, trace) == Now()
    }

    constructor ()
      ensures Valid() && Now() == EMPTY
    {
      now, rows, waiting := 0, map[], map[];
      marks, sent, trace := [], [], [];
    }

    ghost method Note(before: State, e: Event)
      requires Runs(EMPTY, trace) && After(EMPTY, trace) == before && Enabled(before, e) && Now() == Apply(before, e)
      modifies this`trace
      ensures Valid() && trace == old(trace) + [e]
    {
      RunsAppend(EMPTY, trace, e);
      trace := trace + [e];
    }

    /** PATCH /admin/errors/:id */
    method ResolveError(fp: Fingerprint, resolved: bool) returns (found: bool)
      requires Valid()
      modifies this`rows, this`marks, this`trace
      ensures Valid()
      ensures found <==> fp in old(rows)
      ensures found ==> trace == old(trace) + [Resolve(fp, resolved)]
      ensures !found ==> rows == old(rows) && trace == old(trace)
    {
      found := fp in rows;
      if found {
        ghost var before := Now();
        rows := rows[fp := rows[fp].(alertedAt := None, resolved := resolved)];
        marks := marks + [Resolved(fp)];
        Note(before, Resolve(fp, resolved));
      }
    }

    /** INSERT ... ON CONFLICT DO UPDATE */
    method InsertOrBump(fp: Fingerprint, source: Source)
      modifies this`rows
      ensures rows == old(rows)[fp := Upserted(old(rows), fp, source, now)]
    {
      if fp !in rows {
        var alertedAt := if source == Client then None else Some(now);
        rows := rows[fp := Row(source, 1, alertedAt, false)];
      } else {
        var row := rows[fp];
        var quiet := row.alertedAt.None? || row.alertedAt.value < now - REALERT_AFTER_MS;
        var loud := row.source != Client || row.count + 1 >= CLIENT_ALERT_MIN_COUNT;
        rows := rows[fp := Row(row.source, row.count + 1, if quiet && loud then Some(now) else row.alertedAt, false)];
      }
    }

    /** The insert-or-bump statement; its answer is whether this call is to alert. */
    method Upsert(call: CallId, fp: Fingerprint, source: Source) returns (shouldAlert: bool)
      requires Valid() && call !in waiting
      modifies this`rows, this`waiting, this`marks, this`trace
      ensures Valid() && trace == old(trace) + [Capture(call, fp, source)]
      ensures shouldAlert <==> call in waiting
      ensures rows == old(rows)[fp := Upserted(old(rows), fp, source, now)]
      ensures shouldAlert <==> ShouldAlert(rows[fp], now)
      ensures waiting == if shouldAlert then old(waiting)[call := Claim(fp, now, |old(marks)|)] else old(waiting)
    {
      ghost var before := Now();
      InsertOrBump(fp, source);
      shouldAlert := rows[fp].alertedAt == Some(now);
      if shouldAlert {
        waiting := waiting[call := Claim(fp, now, |marks|)];
        marks := marks + [Claimed(fp, rows[fp].source, now, rows[fp].count)];
      }
      assert Now() == Captured(before, call, fp, source);
      Note(before, Capture(call, fp, source));
    }

    /** The hourly ceiling: send, or suppress when more than twelve alerts are an hour old or younger. */
    method SendUnlessFlooded(call: CallId) returns (alerted: bool)
      requires Valid() && call in waiting
      modifies this`waiting, this`sent, this`trace
      ensures Valid() && trace == old(trace) + [Check(call)]
      ensures alerted <==> |Recent(rows, now)| <= MAX_ALERTS_PER_HOUR
      ensures sent == if alerted then old(sent) + [Sent(old(waiting)[call].fp, old(waiting)[call].at, old(waiting)[call].mark, now)]
                      else old(sent)
      ensures waiting == old(waiting) - {call}
    {
      ghost var before := Now();
      var recent := |Recent(rows, now)|;
      alerted := recent <= MAX_ALERTS_PER_HOUR;
      if alerted {
        sent := sent + [Sent(waiting[call].fp, waiting[call].at, waiting[call].mark, now)];
      }
      waiting := waiting - {call};
      Note(before, Check(call));
    }

    /** The count query fails: the claim stands on the row and no alert goes out. */
    method LoseAlert(call: CallId)
      requires Valid() && call in waiting
      modifies this`waiting, this`trace
      ensures Valid() && trace == old(trace) + [Lose(call)] && waiting == old(waiting) - {call}
    {
      ghost var before := Now();
      waiting := waiting - {call};
      Note(before, Lose(call));
    }

    /** One event of another call, of an admin or of the clock. */
    method Perform(e: Event)
      requires Valid() && Enabled(Now(), e)
      modifies this
      ensures Valid() && Now() == Apply(old(Now()), e) && trace == old(trace) + [e]
    {
      ghost var before := Now();
      var t := Apply(Now(), e);
      now, rows, waiting, marks, sent := t.now, t.rows, t.waiting, t.marks, t.sent;
      Note(before, e);
    }

    /** The await between the two queries. */
    method Await(me: CallId, others: seq<Event>) returns (ghost between: seq<Event>)
      requires Valid() && me in waiting
      modifies this
      ensures Valid() && me in waiting && waiting[me] == old(waiting[me])
      ensures trace == old(trace) + between && OfOthers(between, others, me)
      ensures others == [] ==> unchanged(this)
    {
      between := [];
      for i := 0 to |others|
        invariant Valid() && me in waiting && waiting[me] == old(waiting[me])
        invariant trace == old(trace) + between && OfOthers(between, others, me)
        invariant i == 0 ==> unchanged(this)
      {
        var e := others[i];
        if Enabled(Now(), e) && !Ends(e, me) {
          OthersLeaveMe(Now(), e, me);
          Perform(e);
          between := between + [e];
        }
      }
    }

    /** After a claim: the await, and the count query, which may fail. */
    method FinishAlert(me: CallId, luck: Luck, others: seq<Event>) returns (alerted: bool, ghost between: seq<Event>)
      requires Valid() && me in waiting && !luck.UpsertFails?
      modifies this
      ensures Valid() && me !in waiting && OfOthers(between, others, me)
      ensures trace == old(trace) + (between + [if luck.CountFails? then Lose(me) else Check(me)])
      ensures luck.CountFails? ==> !alerted
      ensures alerted ==> sent != [] && sent[|sent| - 1].fp == old(waiting)[me].fp && sent[|sent| - 1].checkedAt == now
      ensures others == [] ==> now == old(now) && rows == old(rows)
      ensures others == [] && luck.AllWell? ==> (alerted <==> |Recent(rows, now)| <= MAX_ALERTS_PER_HOUR)
    {
      between := Await(me, others);
      if luck.CountFails? {
        LoseAlert(me);
        return false, between;
      }
      alerted := SendUnlessFlooded(me);
    }

    /**
     * One call from end to end; true when it sent an alert. Its part of the run is its upsert
     * and, when that claims, its check, or its loss when the count query fails; the rest is events
     * of others in between. When the upsert fails it does nothing.
     */
    method CaptureError(me: CallId, fp: Fingerprint, source: Source, luck: Luck, others: seq<Event>)
        returns (alerted: bool, ghost between: seq<Event>)
      requires Valid() && me !in waiting
      modifies this
      ensures Valid() && me !in waiting && OfOthers(between, others, me)
      ensures trace == old(trace) + OwnPart(me, fp, source, luck, between,
                                            ShouldAlert(Upserted(old(rows), fp, source, old(now)), old(now)))
      ensures luck.UpsertFails? ==> unchanged(this)
      ensures luck.CountFails? ==> !alerted
      ensures alerted ==> sent != [] && sent[|sent| - 1].fp == fp && sent[|sent| - 1].checkedAt == now
      ensures others == [] && !luck.UpsertFails? ==>
                now == old(now) && rows == old(rows)[fp := Upserted(old(rows), fp, source, now)]
      ensures others == [] && luck.AllWell? ==>
                (alerted <==> ShouldAlert(rows[fp], now) && |Recent(rows, now)| <= MAX_ALERTS_PER_HOUR)
    {
      between := [];
      if luck.UpsertFails? {
        return false, [];
      }
      var shouldAlert := Upsert(me, fp, source);
      if !shouldAlert {
        return false, [];
      }
      alerted, between := FinishAlert(me, luck, others);
      Regroup(old(trace), Capture(me, fp, source), between + [if luck.CountFails? then Lose(me) else Check(me)]);
    }
  }
}
