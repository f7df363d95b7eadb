/**
 * The error-alert throttle of src/lib/errorTracking.ts as a machine: the upsert that may claim
 * an alert, and, later, the hourly check that sends or suppresses it. Times are milliseconds.
 */
module AlertThrottle {
  import opened Wrappers
  import opened Sets

  const REALERT_AFTER_MS: int := 6 * 3_600_000
  const CLIENT_ALERT_MIN_COUNT: nat := 25
  const MAX_ALERTS_PER_HOUR: nat := 12
  const HOUR: int := 3_600_000

  type Fingerprint = string
  type CallId = nat

  datatype Source = Api | Client

  datatype Row = Row(source: Source, count: nat, alertedAt: Option<int>, resolved: bool)

  /** A claimed alert; `mark` is its place in the history. */
  datatype Claim = Claim(fp: Fingerprint, at: int, mark: nat)

  datatype Sent = Sent(fp: Fingerprint, at: int, mark: nat, checkedAt: int)

  /** What has happened to a fingerprint's alerts. */
  datatype Mark = Claimed(fp: Fingerprint, source: Source, at: int, count: nat) | Resolved(fp: Fingerprint)

  datatype State = State(
    now: int,
    rows: map<Fingerprint, Row>,
    // calls between their upsert and their hourly check
    waiting: map<CallId, Claim>,
    // histories
    marks: seq<Mark>,
    sent: seq<Sent>)

  const EMPTY := State(0, map[], map[], [], [])

  datatype Event =
    | Advance(to: int)
    | Capture(call: CallId, fp: Fingerprint, source: Source)
    | Check(call: CallId)
    // the count query fails, or the process dies before it: the claim stays, the alert is lost
    | Lose(call: CallId)
    | Resolve(fp: Fingerprint, resolved: bool)
    | Prune(fp: Fingerprint)

  predicate Enabled(s: State, e: Event) {
    match e
    case Advance(to) => to >= s.now
    case Capture(call, _, _) => call !in s.waiting
    case Check(call) => call in s.waiting
    case Lose(call) => call in s.waiting
    case Resolve(fp, _) => fp in s.rows
    case Prune(fp) => fp in s.rows && s.rows[fp].resolved
  }

  /** The CASE of the conflict branch: may this occurrence claim an alert? */
  predicate Claims(row: Row, now: int) {
    && (row.alertedAt.None? || row.alertedAt.value < now - REALERT_AFTER_MS)
    && (row.source != Client || row.count + 1 >= CLIENT_ALERT_MIN_COUNT)
  }

  function Inserted(source: Source, now: int): Row {
    Row(source, 1, if source == Client then None else Some(now), false)
  }

  function Bumped(row: Row, now: int): Row {
    Row(row.source, row.count + 1, if Claims(row, now) then Some(now) else row.alertedAt, false)
  }

  function Upserted(rows: map<Fingerprint, Row>, fp: Fingerprint, source: Source, now: int): Row {
    if fp in rows then Bumped(rows[fp], now) else Inserted(source, now)
  }

  /** `alerted_at = now()` */
  predicate ShouldAlert(row: Row, now: int) {
    row.alertedAt == Some(now)
  }

  /** `SELECT count(*) ... WHERE alerted_at > now() - interval '1 hour'`, as the set it counts. */
  function Recent(rows: map<Fingerprint, Row>, now: int): set<Fingerprint> {
    set fp | fp in rows && rows[fp].alertedAt.Some? && rows[fp].alertedAt.value > now - HOUR
  }

  function Captured(s: State, call: CallId, fp: Fingerprint, source: Source): State {
    var row := Upserted(s.rows, fp, source, s.now);
    var t := s.(rows := s.rows[fp := row]);
    if ShouldAlert(row, s.now) then
      t.(waiting := s.waiting[call := Claim(fp, s.now, |s.marks|)], marks := s.marks + [Claimed(fp, row.source, s.now, row.count)])
    else t
  }

  function Checked(s: State, call: CallId): State
    requires call in s.waiting
  {
    var c := s.waiting[call];
    var t := s.(waiting := s.waiting - {call});
    if |Recent(s.rows, s.now)| > MAX_ALERTS_PER_HOUR then t
    else t.(sent := s.sent + [Sent(c.fp, c.at, c.mark, s.now)])
  }

  function Apply(s: State, e: Event): State
    requires Enabled(s, e)
  {
    match e
    case Advance(to) => s.(now := to)
    case Capture(call, fp, source) => Captured(s, call, fp, source)
    case Check(call) => Checked(s, call)
    case Lose(call) => s.(waiting := s.waiting - {call})
    case Resolve(fp, resolved) =>
      s.(rows := s.rows[fp := s.rows[fp].(alertedAt := None, resolved := resolved)], marks := s.marks + [Resolved(fp)])
    case Prune(fp) => s.(rows := s.rows - {fp})
  }

  ghost predicate Runs(s: State, es: seq<Event>)
    decreases |es|
  {
    es == [] || (Enabled(s, es[0]) && Runs(Apply(s, es[0]), es[1..]))
  }

  ghost function After(s: State, es: seq<Event>): State
    requires Runs(s, es)
    decreases |es|
  {
    if es == [] then s else After(Apply(s, es[0]), es[1..])
  }

  lemma {:induction false} RunsAppend(s: State, es: seq<Event>, e: Event)
    requires Runs(s, es) && Enabled(After(s, es), e)
    ensures Runs(s, es + [e]) && After(s, es + [e]) == Apply(After(s, es), e)
    decreases |es|
  {
    if es == [] {
      assert [e][1..] == [];
    } else {
      assert (es + [e])[1..] == es[1..] + [e];
      RunsAppend(Apply(s, es[0]), es[1..], e);
    }
  }

  // ----- claims of one fingerprint

  predicate IsClaim(m: Mark, fp: Fingerprint) {
    m.Claimed? && m.fp == fp
  }

  ghost predicate NoneBetween(marks: seq<Mark>, fp: Fingerprint, i: nat, j: nat)
    requires j <= |marks|
  {
    forall k :: i < k < j ==> marks[k] != Resolved(fp)
  }

  /** Claims with no resolve between them are made at one instant or more than six hours apart. */
  ghost predicate Apart(marks: seq<Mark>) {
    forall i, j :: 0 <= i < j < |marks| && IsClaim(marks[i], marks[j].fp) && marks[j].Claimed?
                   && NoneBetween(marks, marks[j].fp, i, j) ==>
      SameOrEarlier(marks[i].at, marks[j].at)
  }

  /** Claims not undone by a resolve are the row's own time stamp, or more than six hours before it. */
  ghost predicate Stamped(s: State) {
    forall i :: 0 <= i < |s.marks| && s.marks[i].Claimed? && NoneBetween(s.marks, s.marks[i].fp, i, |s.marks|) ==>
      && s.marks[i].fp in s.rows && !s.rows[s.marks[i].fp].resolved
      && s.rows[s.marks[i].fp].alertedAt.Some?
      && SameOrEarlier(s.marks[i].at, s.rows[s.marks[i].fp].alertedAt.value)
  }

  /** The same instant, or more than six hours before. */
  predicate SameOrEarlier(a: int, b: int) {
    a == b || a + REALERT_AFTER_MS < b
  }

  ghost predicate RowsOk(s: State) {
    forall fp <- s.rows ::
      && (s.rows[fp].alertedAt.Some? ==> s.rows[fp].alertedAt.value <= s.now && !s.rows[fp].resolved)
      && (s.rows[fp].source == Client && s.rows[fp].alertedAt.Some? ==> s.rows[fp].count >= CLIENT_ALERT_MIN_COUNT)
  }

  ghost predicate CountsOk(s: State) {
    forall i :: 0 <= i < |s.marks| && s.marks[i].Claimed? && s.marks[i].source == Client ==>
      s.marks[i].count >= CLIENT_ALERT_MIN_COUNT
  }

  ghost predicate Inv(s: State) {
    Apart(s.marks) && Stamped(s) && RowsOk(s) && CountsOk(s)
  }

  /** A new claim is apart from every earlier one the row still remembers. */
  lemma ClaimKeepsApart(s: State, fp: Fingerprint, source: Source)
    requires Inv(s)
    requires var row := Upserted(s.rows, fp, source, s.now); ShouldAlert(row, s.now)
    ensures var row := Upserted(s.rows, fp, source, s.now); Apart(s.marks + [Claimed(fp, row.source, s.now, row.count)])
  {
    var row := Upserted(s.rows, fp, source, s.now);
    var marks := s.marks + [Claimed(fp, row.source, s.now, row.count)];
    forall i, j | 0 <= i < j < |marks| && IsClaim(marks[i], marks[j].fp) && marks[j].Claimed?
                  && NoneBetween(marks, marks[j].fp, i, j)
      ensures SameOrEarlier(marks[i].at, marks[j].at)
    {
      if j < |s.marks| {
        assert NoneBetween(s.marks, s.marks[j].fp, i, j) by {
          forall k | i < k < j ensures s.marks[k] != Resolved(s.marks[j].fp) {
            assert marks[k] == s.marks[k];
          }
        }
        assert IsClaim(s.marks[i], s.marks[j].fp);
      } else {
        assert NoneBetween(s.marks, fp, i, |s.marks|) by {
          forall k | i < k < |s.marks| ensures s.marks[k] != Resolved(fp) {
            assert marks[k] == s.marks[k];
          }
        }
        assert s.marks[i].fp == fp;
      }
    }
  }

  lemma CaptureKeepsStamped(s: State, call: CallId, fp: Fingerprint, source: Source)
    requires Inv(s)
    ensures Stamped(Captured(s, call, fp, source))
  {
    var t := Captured(s, call, fp, source);
    forall i | 0 <= i < |t.marks| && t.marks[i].Claimed? && NoneBetween(t.marks, t.marks[i].fp, i, |t.marks|)
      ensures t.marks[i].fp in t.rows && !t.rows[t.marks[i].fp].resolved
      ensures t.rows[t.marks[i].fp].alertedAt.Some? && SameOrEarlier(t.marks[i].at, t.rows[t.marks[i].fp].alertedAt.value)
    {
      if i < |s.marks| {
        assert NoneBetween(s.marks, s.marks[i].fp, i, |s.marks|) by {
          forall k | i < k < |s.marks| ensures s.marks[k] != Resolved(s.marks[i].fp) {
            assert t.marks[k] == s.marks[k];
          }
        }
      }
    }
  }

  lemma CaptureKeeps(s: State, call: CallId, fp: Fingerprint, source: Source)
    requires Inv(s)
    ensures Inv(Captured(s, call, fp, source))
  {
    if ShouldAlert(Upserted(s.rows, fp, source, s.now), s.now) {
      ClaimKeepsApart(s, fp, source);
    }
    CaptureKeepsStamped(s, call, fp, source);
  }

  lemma ResolveKeeps(s: State, fp: Fingerprint, resolved: bool)
    requires Inv(s) && Enabled(s, Resolve(fp, resolved))
    ensures Inv(Apply(s, Resolve(fp, resolved)))
  {
    var t := Apply(s, Resolve(fp, resolved));
    forall i, j | 0 <= i < j < |t.marks| && IsClaim(t.marks[i], t.marks[j].fp) && t.marks[j].Claimed?
                  && NoneBetween(t.marks, t.marks[j].fp, i, j)
      ensures SameOrEarlier(t.marks[i].at, t.marks[j].at)
    {
      assert IsClaim(s.marks[i], s.marks[j].fp);
      assert NoneBetween(s.marks, s.marks[j].fp, i, j) by {
        forall k | i < k < j ensures s.marks[k] != Resolved(s.marks[j].fp) {
          assert t.marks[k] == s.marks[k];
        }
      }
    }
    forall i | 0 <= i < |t.marks| && t.marks[i].Claimed? && NoneBetween(t.marks, t.marks[i].fp, i, |t.marks|)
      ensures t.marks[i].fp in t.rows && !t.rows[t.marks[i].fp].resolved
      ensures t.rows[t.marks[i].fp].alertedAt.Some? && SameOrEarlier(t.marks[i].at, t.rows[t.marks[i].fp].alertedAt.value)
    {
      assert t.marks[|s.marks|] == Resolved(fp);
      assert NoneBetween(s.marks, s.marks[i].fp, i, |s.marks|) by {
        forall k | i < k < |s.marks| ensures s.marks[k] != Resolved(s.marks[i].fp) {
          assert t.marks[k] == s.marks[k];
        }
      }
    }
  }

  lemma PruneKeeps(s: State, fp: Fingerprint)
    requires Inv(s) && Enabled(s, Prune(fp))
    ensures Inv(Apply(s, Prune(fp)))
  {
    var t := Apply(s, Prune(fp));
    forall i | 0 <= i < |t.marks| && t.marks[i].Claimed? && NoneBetween(t.marks, t.marks[i].fp, i, |t.marks|)
      ensures t.marks[i].fp in t.rows && !t.rows[t.marks[i].fp].resolved
      ensures t.rows[t.marks[i].fp].alertedAt.Some? && SameOrEarlier(t.marks[i].at, t.rows[t.marks[i].fp].alertedAt.value)
    {
      assert NoneBetween(s.marks, s.marks[i].fp, i, |s.marks|);
    }
  }

  lemma StepKeeps(s: State, e: Event)
    requires Inv(s) && Enabled(s, e)
    ensures Inv(Apply(s, e))
  {
    match e
    case Capture(call, fp, source) => CaptureKeeps(s, call, fp, source);
    case Resolve(fp, resolved) => ResolveKeeps(s, fp, resolved);
    case Prune(fp) => PruneKeeps(s, fp);
    case Advance(_) => assert Apply(s, e).marks == s.marks;
    case Check(_) => assert Apply(s, e).marks == s.marks;
    case Lose(_) => assert Apply(s, e).marks == s.marks;
  }

  lemma {:induction false} RunKeeps(s: State, es: seq<Event>)
    requires Inv(s) && Runs(s, es)
    ensures Inv(After(s, es))
    decreases |es|
  {
    if es != [] {
      StepKeeps(s, es[0]);
      RunKeeps(Apply(s, es[0]), es[1..]);
    }
  }

  /**
   * In every run, two claims of one fingerprint at different instants within six hours of each
   * other have a manual resolve of it between them.
   */
  lemma ClaimsAreSixHoursApart(es: seq<Event>, i: nat, j: nat)
    requires Runs(EMPTY, es)
    requires var marks := After(EMPTY, es).marks;
             i < j < |marks| && marks[j].Claimed? && IsClaim(marks[i], marks[j].fp)
             && NoneBetween(marks, marks[j].fp, i, j)
    ensures var marks := After(EMPTY, es).marks;
            SameOrEarlier(marks[i].at, marks[j].at)
  {
    RunKeeps(EMPTY, es);
  }

  /** A client fingerprint never claims before its 25th occurrence. */
  lemma ClientClaimsAfter25(es: seq<Event>, i: nat)
    requires Runs(EMPTY, es)
    requires var marks := After(EMPTY, es).marks; i < |marks| && marks[i].Claimed? && marks[i].source == Client
    ensures After(EMPTY, es).marks[i].count >= 25
  {
    RunKeeps(EMPTY, es);
  }

  // ----- exactly when an occurrence claims

  /** A claim of the fingerprint that no resolve has undone since. */
  ghost predicate Stands(s: State, fp: Fingerprint, i: int) {
    0 <= i < |s.marks| && IsClaim(s.marks[i], fp) && NoneBetween(s.marks, fp, i, |s.marks|)
  }

  ghost predicate StampClaimed(s: State, fp: Fingerprint) {
    fp in s.rows && s.rows[fp].alertedAt.Some? ==> exists i :: Stands(s, fp, i) && s.marks[i].at == s.rows[fp].alertedAt.value
  }

  lemma StampStays(s: State, t: State, fp: Fingerprint)
    requires StampClaimed(s, fp) && fp in t.rows && (t.rows[fp].alertedAt.Some? ==> fp in s.rows && t.rows[fp].alertedAt == s.rows[fp].alertedAt)
    requires t.marks == s.marks || (|t.marks| == |s.marks| + 1 && t.marks[..|s.marks|] == s.marks && t.marks[|s.marks|] != Resolved(fp))
    ensures StampClaimed(t, fp)
  {
    if t.rows[fp].alertedAt.Some? {
      var i :| Stands(s, fp, i) && s.marks[i].at == s.rows[fp].alertedAt.value;
      assert t.marks[i] == t.marks[..|s.marks|][i];
      forall k | i < k < |t.marks| ensures t.marks[k] != Resolved(fp) {
        assert k < |s.marks| ==> t.marks[k] == t.marks[..|s.marks|][k] == s.marks[k];
      }
      assert Stands(t, fp, i);
    }
  }

  lemma StampStep(s: State, e: Event, fp: Fingerprint)
    requires Enabled(s, e) && StampClaimed(s, fp)
    ensures StampClaimed(Apply(s, e), fp)
  {
    var t := Apply(s, e);
    if fp in t.rows && t.rows[fp].alertedAt.Some? {
      if e.Capture? && e.fp == fp && |t.marks| > |s.marks| {
        assert Stands(t, fp, |s.marks|);
      } else {
        StampStays(s, t, fp);
      }
    }
  }

  lemma {:induction false} StampAlong(s: State, es: seq<Event>, fp: Fingerprint)
    requires Runs(s, es) && StampClaimed(s, fp)
    ensures StampClaimed(After(s, es), fp)
    decreases |es|
  {
    if es != [] {
      StampStep(s, es[0], fp);
      StampAlong(Apply(s, es[0]), es[1..], fp);
    }
  }

  /** A claim of this very instant stands. */
  ghost predicate ClaimedNow(s: State, fp: Fingerprint) {
    exists i :: Stands(s, fp, i) && s.marks[i].at == s.now
  }

  /** No claim since the last resolve is six hours old or younger. */
  ghost predicate Quiet(s: State, fp: Fingerprint) {
    forall i :: Stands(s, fp, i) ==> s.marks[i].at < s.now - 6 * 3_600_000
  }

  lemma QuietIsOldStamp(s: State, fp: Fingerprint)
    requires Inv(s) && StampClaimed(s, fp)
    ensures Quiet(s, fp) <==> fp !in s.rows || s.rows[fp].alertedAt.None? || s.rows[fp].alertedAt.value < s.now - REALERT_AFTER_MS
    ensures ClaimedNow(s, fp) <==> fp in s.rows && s.rows[fp].alertedAt == Some(s.now)
  {
    if fp in s.rows && s.rows[fp].alertedAt.Some? {
      var i :| Stands(s, fp, i) && s.marks[i].at == s.rows[fp].alertedAt.value;
    }
    forall i | Stands(s, fp, i)
      ensures fp in s.rows && s.rows[fp].alertedAt.Some? && SameOrEarlier(s.marks[i].at, s.rows[fp].alertedAt.value)
    {
      assert s.marks[i].fp == fp;
    }
  }

  /**
   * In every run an occurrence claims exactly when its error is a server's or has now occurred 25
   * times, and no claim of it since its last resolve is six hours old or younger; or when one was
   * made at this very instant. The occurrence is counted either way.
   */
  lemma ClaimsIff(es: seq<Event>, call: CallId, fp: Fingerprint, source: Source)
    requires Runs(EMPTY, es) && call !in After(EMPTY, es).waiting
    ensures var s, t := After(EMPTY, es), Apply(After(EMPTY, es), Capture(call, fp, source));
            var count, kind := if fp in s.rows then s.rows[fp].count + 1 else 1, if fp in s.rows then s.rows[fp].source else source;
            && fp in t.rows && t.rows[fp].count == count && t.rows[fp].source == kind && !t.rows[fp].resolved
            && (call in t.waiting <==> ClaimedNow(s, fp) || ((kind == Api || count >= 25) && Quiet(s, fp)))
            && t.marks == (if call in t.waiting then s.marks + [Claimed(fp, kind, s.now, count)] else s.marks)
            && (call in t.waiting ==> t.waiting[call] == Claim(fp, s.now, |s.marks|))
  {
    RunKeeps(EMPTY, es);
    StampAlong(EMPTY, es, fp);
    QuietIsOldStamp(After(EMPTY, es), fp);
  }

  /** A check sends exactly when at most twelve rows were alerted within the hour; it ends its call either way. */
  lemma CheckSendsIff(s: State, call: CallId)
    requires call in s.waiting
    ensures var t := Apply(s, Check(call));
            var alerted := set fp | fp in s.rows && s.rows[fp].alertedAt.Some? && s.rows[fp].alertedAt.value > s.now - 3_600_000;
            && t.sent == (if |alerted| <= 12
                          then s.sent + [Sent(s.waiting[call].fp, s.waiting[call].at, s.waiting[call].mark, s.now)] else s.sent)
            && t.waiting == s.waiting - {call} && t.rows == s.rows && t.marks == s.marks
  {
    assert Recent(s.rows, s.now)
        == set fp | fp in s.rows && s.rows[fp].alertedAt.Some? && s.rows[fp].alertedAt.value > s.now - 3_600_000;
  }

  /** The exception: right after a resolve the next occurrence claims, however recent the last alert. */
  lemma ResolveRearms(s: State, fp: Fingerprint, resolved: bool, call: CallId, source: Source)
    requires fp in s.rows && call !in s.waiting
    ensures var r := Apply(s, Resolve(fp, resolved));
            var t := Apply(r, Capture(call, fp, source));
            call in t.waiting <==> s.rows[fp].source == Api || s.rows[fp].count + 1 >= CLIENT_ALERT_MIN_COUNT
  {
  }

  // ----- the hourly ceiling

  predicate HasResolve(es: seq<Event>) {
    exists e <- es :: e.Resolve?
  }

  /** The fingerprints of the first k + 1 alerts sent that were claimed within the hour before `at`. */
  function SentSince(sent: seq<Sent>, k: nat, at: int): set<Fingerprint>
    requires k < |sent|
  {
    set j | 0 <= j <= k && sent[j].at > at - HOUR :: sent[j].fp
  }

  /** Every claim, waiting or sent, is still on its row. */
  ghost predicate OnRow(s: State, fp: Fingerprint, at: int) {
    fp in s.rows && !s.rows[fp].resolved && s.rows[fp].alertedAt.Some? && at <= s.rows[fp].alertedAt.value
  }

  ghost predicate AllOnRows(s: State) {
    && (forall call <- s.waiting :: OnRow(s, s.waiting[call].fp, s.waiting[call].at))
    && (forall k :: 0 <= k < |s.sent| ==> OnRow(s, s.sent[k].fp, s.sent[k].at))
    && (forall fp <- s.rows :: !s.rows[fp].resolved && (s.rows[fp].alertedAt.Some? ==> s.rows[fp].alertedAt.value <= s.now))
  }

  ghost predicate CeilingOk(sent: seq<Sent>) {
    forall k :: 0 <= k < |sent| ==>
      sent[k].at <= sent[k].checkedAt && |SentSince(sent, k, sent[k].checkedAt)| <= MAX_ALERTS_PER_HOUR
  }

  lemma CaptureKeepsRows(s: State, call: CallId, fp: Fingerprint, source: Source)
    requires AllOnRows(s)
    ensures AllOnRows(Captured(s, call, fp, source))
  {
    var t := Captured(s, call, fp, source);
    forall other, at | OnRow(s, other, at) && at <= s.now ensures OnRow(t, other, at) {
    }
    forall c <- t.waiting ensures OnRow(t, t.waiting[c].fp, t.waiting[c].at) {
      if c in s.waiting && t.waiting[c] == s.waiting[c] {
        assert OnRow(s, s.waiting[c].fp, s.waiting[c].at);
      }
    }
    forall k | 0 <= k < |t.sent| ensures OnRow(t, t.sent[k].fp, t.sent[k].at) {
      assert OnRow(s, s.sent[k].fp, s.sent[k].at);
    }
  }

  lemma SentIsRecent(s: State, k: nat)
    requires AllOnRows(s) && k < |s.sent|
    ensures SentSince(s.sent, k, s.now) <= Recent(s.rows, s.now)
  {
    forall fp | fp in SentSince(s.sent, k, s.now) ensures fp in Recent(s.rows, s.now) {
      var j :| 0 <= j <= k && s.sent[j].at > s.now - HOUR && s.sent[j].fp == fp;
      assert OnRow(s, s.sent[j].fp, s.sent[j].at);
    }
  }

  lemma PrefixSame(sent: seq<Sent>, x: Sent, k: nat, at: int)
    requires k < |sent|
    ensures SentSince(sent + [x], k, at) == SentSince(sent, k, at)
  {
    forall fp | fp in SentSince(sent, k, at) ensures fp in SentSince(sent + [x], k, at) {
      var j :| 0 <= j <= k && sent[j].at > at - HOUR && sent[j].fp == fp;
      assert (sent + [x])[j] == sent[j];
    }
    forall fp | fp in SentSince(sent + [x], k, at) ensures fp in SentSince(sent, k, at) {
      var j :| 0 <= j <= k && (sent + [x])[j].at > at - HOUR && (sent + [x])[j].fp == fp;
      assert (sent + [x])[j] == sent[j];
    }
  }

  lemma CheckKeepsCeiling(s: State, call: CallId)
    requires AllOnRows(s) && CeilingOk(s.sent) && call in s.waiting
    ensures AllOnRows(Checked(s, call)) && CeilingOk(Checked(s, call).sent)
  {
    var t := Checked(s, call);
    assert OnRow(s, s.waiting[call].fp, s.waiting[call].at);
    forall k | 0 <= k < |t.sent| ensures OnRow(t, t.sent[k].fp, t.sent[k].at) {
      if k < |s.sent| {
        assert OnRow(s, s.sent[k].fp, s.sent[k].at);
      }
    }
    forall c <- t.waiting ensures OnRow(t, t.waiting[c].fp, t.waiting[c].at) {
      assert OnRow(s, s.waiting[c].fp, s.waiting[c].at);
    }
    if |t.sent| > |s.sent| {
      var x := t.sent[|s.sent|];
      forall k | 0 <= k < |t.sent|
        ensures t.sent[k].at <= t.sent[k].checkedAt && |SentSince(t.sent, k, t.sent[k].checkedAt)| <= MAX_ALERTS_PER_HOUR
      {
        if k < |s.sent| {
          PrefixSame(s.sent, x, k, s.sent[k].checkedAt);
        } else {
          SentIsRecent(t, k);
          SubsetSize(SentSince(t.sent, k, t.now), Recent(t.rows, t.now));
        }
      }
    }
  }

  lemma LoseKeepsRows(s: State, call: CallId)
    requires AllOnRows(s) && call in s.waiting
    ensures AllOnRows(s.(waiting := s.waiting - {call}))
  {
    var t := s.(waiting := s.waiting - {call});
    forall c <- t.waiting ensures OnRow(t, t.waiting[c].fp, t.waiting[c].at) {
      assert OnRow(s, s.waiting[c].fp, s.waiting[c].at);
    }
    forall k | 0 <= k < |t.sent| ensures OnRow(t, t.sent[k].fp, t.sent[k].at) {
      assert OnRow(s, s.sent[k].fp, s.sent[k].at);
    }
  }

  lemma AdvanceKeepsRows(s: State, to: int)
    requires AllOnRows(s) && to >= s.now
    ensures AllOnRows(s.(now := to))
  {
    var t := s.(now := to);
    forall c <- t.waiting ensures OnRow(t, t.waiting[c].fp, t.waiting[c].at) {
      assert OnRow(s, s.waiting[c].fp, s.waiting[c].at);
    }
    forall k | 0 <= k < |t.sent| ensures OnRow(t, t.sent[k].fp, t.sent[k].at) {
      assert OnRow(s, s.sent[k].fp, s.sent[k].at);
    }
  }

  lemma {:induction false} QuietRunKeeps(s: State, es: seq<Event>)
    requires AllOnRows(s) && CeilingOk(s.sent) && Runs(s, es) && !HasResolve(es)
    ensures AllOnRows(After(s, es)) && CeilingOk(After(s, es).sent)
    decreases |es|
  {
    if es != [] {
      var e := es[0];
      assert e in es && !e.Resolve?;
      forall x <- es[1..] ensures !x.Resolve? {
        assert x in es;
      }
      match e {
        case Capture(call, fp, source) => CaptureKeepsRows(s, call, fp, source);
        case Check(call) => CheckKeepsCeiling(s, call);
        case Advance(to) => AdvanceKeepsRows(s, to);
        case Lose(call) => LoseKeepsRows(s, call);
        case _ =>
      }
      QuietRunKeeps(Apply(s, e), es[1..]);
    }
  }

  /** Alerts waiting or sent are different claims of the history. */
  ghost predicate Traced(s: State) {
    && (forall c <- s.waiting :: MarkOf(s.marks, s.waiting[c].mark, s.waiting[c].fp, s.waiting[c].at))
    && (forall k :: 0 <= k < |s.sent| ==> MarkOf(s.marks, s.sent[k].mark, s.sent[k].fp, s.sent[k].at))
    && (forall c, d :: c in s.waiting && d in s.waiting && c != d ==> s.waiting[c].mark != s.waiting[d].mark)
    && (forall c, k :: c in s.waiting && 0 <= k < |s.sent| ==> s.waiting[c].mark != s.sent[k].mark)
    && (forall j, k :: 0 <= j < k < |s.sent| ==> s.sent[j].mark != s.sent[k].mark)
  }

  ghost predicate MarkOf(marks: seq<Mark>, m: nat, fp: Fingerprint, at: int) {
    m < |marks| && IsClaim(marks[m], fp) && marks[m].at == at
  }

  lemma TraceCapture(s: State, call: CallId, fp: Fingerprint, source: Source)
    requires Traced(s) && call !in s.waiting
    ensures Traced(Captured(s, call, fp, source))
  {
    var t := Captured(s, call, fp, source);
    forall m: nat, fp, at | MarkOf(s.marks, m, fp, at) ensures MarkOf(t.marks, m, fp, at) {
      assert t.marks[m] == s.marks[m];
    }
    forall c <- t.waiting ensures MarkOf(t.marks, t.waiting[c].mark, t.waiting[c].fp, t.waiting[c].at) {
      if c in s.waiting {
        assert MarkOf(s.marks, s.waiting[c].mark, s.waiting[c].fp, s.waiting[c].at);
      }
    }
  }

  lemma TraceCheck(s: State, call: CallId)
    requires Traced(s) && call in s.waiting
    ensures Traced(Checked(s, call))
  {
    var t := Checked(s, call);
    assert MarkOf(s.marks, s.waiting[call].mark, s.waiting[call].fp, s.waiting[call].at);
    forall k | 0 <= k < |t.sent| ensures MarkOf(t.marks, t.sent[k].mark, t.sent[k].fp, t.sent[k].at) {
      if k < |s.sent| {
        assert MarkOf(s.marks, s.sent[k].mark, s.sent[k].fp, s.sent[k].at);
      }
    }
  }

  lemma TraceResolve(s: State, fp: Fingerprint, resolved: bool)
    requires Traced(s) && fp in s.rows
    ensures Traced(Apply(s, Resolve(fp, resolved)))
  {
    var t := Apply(s, Resolve(fp, resolved));
    forall m: nat, fp, at | MarkOf(s.marks, m, fp, at) ensures MarkOf(t.marks, m, fp, at) {
      assert t.marks[m] == s.marks[m];
    }
  }

  lemma TraceStep(s: State, e: Event)
    requires Traced(s) && Enabled(s, e)
    ensures Traced(Apply(s, e))
    ensures !e.Resolve? ==> forall m <- Apply(s, e).marks :: m in s.marks || m.Claimed?
  {
    match e
    case Capture(call, fp, source) => TraceCapture(s, call, fp, source);
    case Check(call) => TraceCheck(s, call);
    case Resolve(fp, resolved) => TraceResolve(s, fp, resolved);
    case _ =>
  }

  lemma {:induction false} RunIsTraced(s: State, es: seq<Event>)
    requires Traced(s) && Runs(s, es)
    ensures Traced(After(s, es))
    ensures !HasResolve(es) ==> forall m <- After(s, es).marks :: m in s.marks || m.Claimed?
    decreases |es|
  {
    if es != [] {
      TraceStep(s, es[0]);
      RunIsTraced(Apply(s, es[0]), es[1..]);
      if !HasResolve(es) {
        assert es[0] in es;
        forall x <- es[1..] ensures !x.Resolve? {
          assert x in es;
        }
      }
    }
  }

  /** The claim is in no call's hands and was not sent: its alert was suppressed or lost. */
  ghost predicate Unsent(s: State, m: nat) {
    && m < |s.marks|
    && (forall c <- s.waiting :: s.waiting[c].mark != m)
    && (forall k :: 0 <= k < |s.sent| ==> s.sent[k].mark != m)
  }

  lemma UnsentStep(s: State, e: Event, m: nat)
    requires Unsent(s, m) && Enabled(s, e)
    ensures Unsent(Apply(s, e), m)
  {
  }

  /** Such an alert is never sent, whatever happens next; its claim still holds back the next one for six hours. */
  lemma {:induction false} UnsentStaysUnsent(s: State, es: seq<Event>, m: nat)
    requires Unsent(s, m) && Runs(s, es)
    ensures Unsent(After(s, es), m)
    decreases |es|
  {
    if es != [] {
      UnsentStep(s, es[0], m);
      UnsentStaysUnsent(Apply(s, es[0]), es[1..], m);
    }
  }

  lemma LosingIsUnsent(s: State, call: CallId)
    requires Traced(s) && call in s.waiting
    ensures Unsent(Apply(s, Lose(call)), s.waiting[call].mark)
  {
    assert MarkOf(s.marks, s.waiting[call].mark, s.waiting[call].fp, s.waiting[call].at);
  }

  /** An alert whose count query failed is never sent, in any continuation. */
  lemma LostAlertStaysLost(es: seq<Event>, call: CallId, more: seq<Event>)
    requires Runs(EMPTY, es) && call in After(EMPTY, es).waiting && Runs(Apply(After(EMPTY, es), Lose(call)), more)
    ensures var s := After(EMPTY, es);
            forall x <- After(Apply(s, Lose(call)), more).sent :: x.mark != s.waiting[call].mark
  {
    RunIsTraced(EMPTY, es);
    LosingIsUnsent(After(EMPTY, es), call);
    UnsentStaysUnsent(Apply(After(EMPTY, es), Lose(call)), more, After(EMPTY, es).waiting[call].mark);
  }

  /** In a run without manual resolves, each alert sent is one of at most twelve fingerprints claimed in the hour before its check. */
  lemma AtMostTwelveAtEachCheck(es: seq<Event>, k: nat)
    requires Runs(EMPTY, es) && !HasResolve(es) && k < |After(EMPTY, es).sent|
    ensures |SentSince(After(EMPTY, es).sent, k, After(EMPTY, es).sent[k].checkedAt)| <= 12
  {
    QuietRunKeeps(EMPTY, es);
  }

  predicate ChecksWithin(sent: seq<Sent>, lag: int) {
    forall k :: 0 <= k < |sent| ==> sent[k].checkedAt <= sent[k].at + lag
  }

  /** Transaction time stamps are distinct: no fingerprint is claimed twice at one instant. */
  ghost predicate NoTies(marks: seq<Mark>) {
    forall i, j :: 0 <= i < j < |marks| && marks[j].Claimed? && IsClaim(marks[i], marks[j].fp) ==> marks[i].at != marks[j].at
  }

  /** A run without manual resolves, with distinct time stamps, in which no check that sends lags its claim by more than `lag`. */
  ghost predicate Regular(es: seq<Event>, lag: int) {
    && Runs(EMPTY, es) && !HasResolve(es)
    && NoTies(After(EMPTY, es).marks) && ChecksWithin(After(EMPTY, es).sent, lag)
  }

  /** The alerts sent that were claimed in (from, to], by position. */
  function ClaimedWithin(sent: seq<Sent>, from: int, to: int): set<nat> {
    set j: nat | j < |sent| && from < sent[j].at <= to
  }

  /** The alerts sent in (from, to], by position: an alert goes out at its check. */
  function CheckedWithin(sent: seq<Sent>, from: int, to: int): set<nat> {
    set j: nat | j < |sent| && from < sent[j].checkedAt <= to
  }

  /** No window of this width holds more than twelve claims that were sent. */
  ghost predicate TwelveClaimed(lag: int, width: int) {
    forall es, from, to :: Regular(es, lag) && to <= from + width ==> |ClaimedWithin(After(EMPTY, es).sent, from, to)| <= 12
  }

  /** No window of this width sees more than twelve alerts sent. */
  ghost predicate TwelveSent(lag: int, width: int) {
    forall es, from, to :: Regular(es, lag) && to <= from + width ==> |CheckedWithin(After(EMPTY, es).sent, from, to)| <= 12
  }

  lemma {:induction false} ImageSize(js: set<nat>, sent: seq<Sent>, fps: set<Fingerprint>)
    requires forall j <- js :: j < |sent| && sent[j].fp in fps
    requires forall i <- js, j <- js | i != j :: sent[i].fp != sent[j].fp
    ensures |js| <= |fps|
    decreases |js|
  {
    if js != {} {
      var j :| j in js;
      ImageSize(js - {j}, sent, fps - {sent[j].fp});
    }
  }

  lemma DifferentAlerts(es: seq<Event>, i: nat, j: nat)
    requires Runs(EMPTY, es) && !HasResolve(es) && NoTies(After(EMPTY, es).marks)
    requires var sent := After(EMPTY, es).sent;
             && i < |sent| && j < |sent| && i != j
             && sent[i].at <= sent[j].at + REALERT_AFTER_MS && sent[j].at <= sent[i].at + REALERT_AFTER_MS
    ensures After(EMPTY, es).sent[i].fp != After(EMPTY, es).sent[j].fp
  {
    var s := After(EMPTY, es);
    RunIsTraced(EMPTY, es);
    var m, n := s.sent[i].mark, s.sent[j].mark;
    assert MarkOf(s.marks, m, s.sent[i].fp, s.sent[i].at) && MarkOf(s.marks, n, s.sent[j].fp, s.sent[j].at);
    if s.sent[i].fp == s.sent[j].fp {
      forall k | 0 <= k < |s.marks| ensures s.marks[k] != Resolved(s.sent[i].fp) {
        assert s.marks[k] in s.marks;
      }
      var lo, hi := if m < n then m else n, if m < n then n else m;
      assert NoneBetween(s.marks, s.marks[hi].fp, lo, hi);
      ClaimsAreSixHoursApart(es, lo, hi);
      assert false;
    }
  }

  /** Alerts up to the k-th that were all claimed within the hour before its check are at most twelve. */
  lemma TwelveAtOneCheck(es: seq<Event>, js: set<nat>, k: nat)
    requires Runs(EMPTY, es) && !HasResolve(es) && NoTies(After(EMPTY, es).marks)
    requires var sent := After(EMPTY, es).sent;
             && k < |sent|
             && (forall j <- js :: j <= k && sent[k].checkedAt - HOUR < sent[j].at)
             && (forall i <- js, j <- js :: sent[i].at <= sent[j].at + REALERT_AFTER_MS)
    ensures |js| <= 12
  {
    var sent := After(EMPTY, es).sent;
    AtMostTwelveAtEachCheck(es, k);
    forall i <- js, j <- js | i != j ensures sent[i].fp != sent[j].fp {
      DifferentAlerts(es, i, j);
    }
    ImageSize(js, sent, SentSince(sent, k, sent[k].checkedAt));
  }

  lemma {:induction false} LastOf(js: set<nat>) returns (k: nat)
    requires js != {}
    ensures k in js && forall j <- js :: j <= k
    decreases |js|
  {
    var j :| j in js;
    if js == {j} {
      k := j;
    } else {
      k := LastOf(js - {j});
      assert forall i <- js :: i == j || i in js - {j};
      if k < j {
        k := j;
      }
    }
  }

  lemma WindowHoldsTwelve(es: seq<Event>, lag: int, from: int, to: int)
    requires Regular(es, lag) && 0 <= lag <= HOUR && to <= from + HOUR - lag
    ensures |ClaimedWithin(After(EMPTY, es).sent, from, to)| <= 12
    ensures |CheckedWithin(After(EMPTY, es).sent, from, to)| <= 12
  {
    var sent := After(EMPTY, es).sent;
    QuietRunKeeps(EMPTY, es);
    var claimed, checked := ClaimedWithin(sent, from, to), CheckedWithin(sent, from, to);
    if claimed != {} {
      var k := LastOf(claimed);
      TwelveAtOneCheck(es, claimed, k);
    }
    if checked != {} {
      var k := LastOf(checked);
      TwelveAtOneCheck(es, checked, k);
    }
  }

  // ----- why the lag matters

  function Name(n: nat): (fp: Fingerprint)
    ensures |fp| == n
  {
    if n == 0 then "" else Name(n - 1) + "e"
  }

  /** The first n names have claimed once each, and nothing else has. */
  ghost predicate Flooded(s: State, n: nat) {
    && |s.marks| == n && (forall i :: 0 <= i < n ==> s.marks[i].Claimed? && |s.marks[i].fp| == i)
    && |s.rows| == n && (forall fp <- s.rows :: |fp| < n && s.rows[fp].alertedAt.Some?)
  }

  /** Calls k up to n wait, all claimed at 0; the first k were checked at `at` and sent. */
  ghost predicate CheckedUpTo(s: State, n: nat, k: nat, at: int) {
    && s.now == at && (forall fp <- s.rows :: s.rows[fp].alertedAt == Some(0))
    && (forall c: CallId :: c in s.waiting <==> k <= c < n) && (forall c <- s.waiting :: s.waiting[c].at == 0)
    && |s.sent| == k && (forall i :: 0 <= i < k ==> s.sent[i].at == 0 && s.sent[i].checkedAt == at)
  }

  lemma FloodOne(s: State, n: nat)
    requires Flooded(s, n) && CheckedUpTo(s, n, 0, 0)
    ensures Flooded(Captured(s, n, Name(n), Api), n + 1)
    ensures CheckedUpTo(Captured(s, n, Name(n), Api), n + 1, 0, 0)
  {
    var t := Captured(s, n, Name(n), Api);
    assert Name(n) !in s.rows;
    assert t.waiting == s.waiting[n := Claim(Name(n), 0, n)];
    assert t.marks == s.marks + [Claimed(Name(n), Api, 0, 1)];
    assert t.rows == s.rows[Name(n) := Row(Api, 1, Some(0), false)];
  }

  lemma {:induction false} Flood(n: nat) returns (es: seq<Event>)
    ensures Runs(EMPTY, es) && !HasResolve(es)
    ensures Flooded(After(EMPTY, es), n) && CheckedUpTo(After(EMPTY, es), n, 0, 0)
  {
    es := [];
    if n > 0 {
      var before := Flood(n - 1);
      var e := Capture(n - 1, Name(n - 1), Api);
      assert Enabled(After(EMPTY, before), e);
      RunsAppend(EMPTY, before, e);
      es := before + [e];
      FloodOne(After(EMPTY, before), n - 1);
      assert After(EMPTY, es) == Captured(After(EMPTY, before), n - 1, Name(n - 1), Api);
    }
  }

  lemma RecentAtMost(s: State)
    ensures |Recent(s.rows, s.now)| <= |s.rows|
  {
    SubsetSize(Recent(s.rows, s.now), s.rows.Keys);
  }

  /** All checks pass when at most twelve rows have claimed, or when the claims are an hour old. */
  lemma {:induction false} FloodChecked(n: nat, k: nat, at: int) returns (es: seq<Event>)
    requires k <= n && 0 <= at && (n <= 12 || at >= HOUR)
    ensures Runs(EMPTY, es) && !HasResolve(es)
    ensures Flooded(After(EMPTY, es), n) && CheckedUpTo(After(EMPTY, es), n, k, at)
  {
    if k == 0 {
      es := Flood(n);
      RunsAppend(EMPTY, es, Advance(at));
      es := es + [Advance(at)];
    } else {
      es := FloodChecked(n, k - 1, at);
      var s := After(EMPTY, es);
      RecentAtMost(s);
      assert at >= HOUR ==> Recent(s.rows, s.now) == {};
      RunsAppend(EMPTY, es, Check(k - 1));
      es := es + [Check(k - 1)];
    }
  }

  /** A thirteenth name claims when twelve have been checked. */
  lemma LateClaim(before: seq<Event>, first: int, second: int) returns (es: seq<Event>)
    requires Runs(EMPTY, before) && !HasResolve(before) && first <= second
    requires Flooded(After(EMPTY, before), 12) && CheckedUpTo(After(EMPTY, before), 12, 12, first)
    ensures Runs(EMPTY, es) && !HasResolve(es)
    ensures var s, t := After(EMPTY, before), After(EMPTY, es);
            && t.now == second && t.sent == s.sent && t.waiting == map[12 := Claim(Name(12), second, 12)]
            && t.marks == s.marks + [Claimed(Name(12), Api, second, 1)]
            && t.rows == s.rows[Name(12) := Row(Api, 1, Some(second), false)]
  {
    RunsAppend(EMPTY, before, Advance(second));
    es := before + [Advance(second)];
    var e := Capture(12, Name(12), Api);
    assert Name(12) !in After(EMPTY, before).rows;
    assert After(EMPTY, before).waiting == map[];
    RunsAppend(EMPTY, es, e);
    es := es + [e];
  }

  /** Twelve alerts claimed at 0 and sent at `first`, then a thirteenth claimed at `second` and sent at `last`. */
  lemma Thirteen(first: int, second: int, last: int) returns (es: seq<Event>)
    requires 0 <= first <= second <= last && HOUR <= last
    ensures Runs(EMPTY, es) && !HasResolve(es) && NoTies(After(EMPTY, es).marks)
    ensures var sent := After(EMPTY, es).sent;
            && |sent| == 13
            && (forall i :: 0 <= i < 12 ==> sent[i].at == 0 && sent[i].checkedAt == first)
            && sent[12].at == second && sent[12].checkedAt == last
  {
    es := FloodChecked(12, 12, first);
    es := LateClaim(es, first, second);
    RunsAppend(EMPTY, es, Advance(last));
    es := es + [Advance(last)];
    var u := After(EMPTY, es);
    assert Recent(u.rows, u.now) <= {Name(12)};
    SubsetSize(Recent(u.rows, u.now), {Name(12)});
    RunsAppend(EMPTY, es, Check(12));
    es := es + [Check(12)];
  }

  lemma {:induction false} FirstAreIn(js: set<nat>, n: nat)
    requires forall j: nat :: j < n ==> j in js
    ensures |js| >= n
  {
    if n > 0 {
      FirstAreIn(js - {n - 1}, n - 1);
    }
  }

  lemma WiderHoldsThirteen(lag: int, width: int)
    requires 0 <= lag <= HOUR && width > HOUR - lag
    ensures !TwelveClaimed(lag, width) && !TwelveSent(lag, width)
  {
    var claims := Thirteen(0, HOUR - lag, HOUR);
    assert Regular(claims, lag);
    FirstAreIn(ClaimedWithin(After(EMPTY, claims).sent, -1, HOUR - lag), 13);
    var sends := Thirteen(lag, HOUR, HOUR);
    assert Regular(sends, lag);
    FirstAreIn(CheckedWithin(After(EMPTY, sends).sent, lag - 1, HOUR), 13);
  }

  /**
   * The windows that never hold more than twelve alerts, counted by claim or by sending: exactly
   * those no wider than an hour less the lag of the checks. (Over all runs without manual
   * resolves and with distinct time stamps whose checks lag by at most `lag`.)
   */
  lemma TwelvePerWindowIff(lag: int, width: int)
    requires 0 <= lag <= 3_600_000
    ensures TwelveClaimed(lag, width) <==> width <= 3_600_000 - lag
    ensures TwelveSent(lag, width) <==> width <= 3_600_000 - lag
  {
    if width <= HOUR - lag {
      forall es, from, to | Regular(es, lag) && to <= from + width
        ensures |ClaimedWithin(After(EMPTY, es).sent, from, to)| <= 12
        ensures |CheckedWithin(After(EMPTY, es).sent, from, to)| <= 12
      {
        WindowHoldsTwelve(es, lag, from, to);
      }
    } else {
      WiderHoldsThirteen(lag, width);
    }
  }

  /** Twelve alerts in any rolling hour: promised exactly when no check lags its claim at all. */
  lemma TwelvePerRollingHourIff(lag: int)
    requires 0 <= lag <= 3_600_000
    ensures TwelveClaimed(lag, 3_600_000) <==> lag == 0
    ensures TwelveSent(lag, 3_600_000) <==> lag == 0
  {
    TwelvePerWindowIff(lag, HOUR);
  }

  /** Checks that come an hour after their claims see none of them: any number of alerts claimed at one instant is sent. */
  lemma LateChecksExceed(n: nat) returns (es: seq<Event>)
    ensures Regular(es, 3_600_000)
    ensures var sent := After(EMPTY, es).sent;
            |sent| == n && forall i :: 0 <= i < n ==> sent[i].at == 0 && sent[i].checkedAt == 3_600_000
  {
    es := FloodChecked(n, n, HOUR);
  }
}
