/**
 * The status page from end to end: what its bars and its uptime say about the polls and the
 * posts they are computed from.
 */
module StatusUptime {
  import opened Wrappers
  import opened Sets
  import opened StatusLevels
  import opened StatusLog
  import opened Intervals
  import opened StatusHistory
  import opened StatusBars

  datatype History = History(uptime: real, bars: seq<Level>)

  /** Nothing is stamped later than now. */
  ghost predicate NoFuture(posts: seq<Post>, polls: seq<Poll>, now: int) {
    && (forall p :: p in posts && p.resolved.Some? ==> p.resolved.value <= now)
    && (forall q :: 0 <= q < |polls| ==> forall c :: 0 <= c < |polls[q].turns| ==> polls[q].turns[c].at <= now)
  }

  /** A component's level at an instant, by the last poll or by an active post. */
  ghost predicate Says(posts: seq<Post>, polls: seq<Poll>, key: Key, t: int, level: Level) {
    || Observed(polls, key, t) == level
    || exists p :: p in posts && key in p.affected && p.created <= t && (p.resolved.Some? ==> t < p.resolved.value)
                   && PostSays(p, level)
  }

  /** Maintenance posts say maintenance, incidents what their impact is, announcements nothing. */
  predicate PostSays(p: Post, level: Level) {
    match level
    case Operational => p.kind == Announcement || (p.kind == Incident && (p.impact == NoImpact || p.impact == MaintenanceImpact))
    case Maintenance => p.kind == MaintenancePost
    case Degraded => p.kind == Incident && p.impact == Minor
    case PartialOutage => p.kind == Incident && p.impact == Major
    case MajorOutage => p.kind == Incident && p.impact == Critical
  }

  lemma PostSaysLevel(p: Post, level: Level)
    ensures PostSays(p, level) <==> PostLevel(p.kind, p.impact) == level
  {
  }

  /** A component's level at an instant, as the log and the posts have it. */
  lemma SaysIsImpaired(posts: seq<Post>, polls: seq<Poll>, key: Key, t: int, level: Level)
    requires WellTimed(polls) && level != Operational
    ensures Says(posts, polls, key, t, level) <==> Impaired(posts, LogAfter(polls), key, t, level)
  {
    LogRoundTrip(polls, key, t);
    forall p | p in posts ensures PostSays(p, level) <==> PostLevel(p.kind, p.impact) == level {
      PostSaysLevel(p, level);
    }
  }

  predicate InWindow(w: Window, t: int) {
    w.start <= t < w.End() && t < w.now
  }

  ghost predicate Reported(posts: seq<Post>, polls: seq<Poll>, keys: set<Key>, t: int, r: nat) {
    exists k, level :: k in keys && Says(posts, polls, k, t, level) && Rank(level) >= r
  }

  /** The instants of the window before now, from the program's cursor on, at which one of the components has an outage. */
  ghost function OutageInstants(posts: seq<Post>, polls: seq<Poll>, keys: set<Key>, w: Window): set<int> {
    set t | t in Passed(w.start, w.End(), w.now) && t >= -1 && InOutage(posts, polls, keys, t)
  }

  ghost predicate InOutage(posts: seq<Post>, polls: seq<Poll>, keys: set<Key>, t: int) {
    exists k, level :: k in keys && Says(posts, polls, k, t, level) && (level == PartialOutage || level == MajorOutage)
  }

  lemma OutageIsReported(posts: seq<Post>, polls: seq<Poll>, keys: set<Key>, t: int)
    ensures InOutage(posts, polls, keys, t) <==> Reported(posts, polls, keys, t, Rank(PartialOutage))
  {
    if k, level :| k in keys && Says(posts, polls, k, t, level) && Rank(level) >= Rank(PartialOutage) {
      assert level == PartialOutage || level == MajorOutage;
    }
    if k, level :| k in keys && Says(posts, polls, k, t, level) && (level == PartialOutage || level == MajorOutage) {
      assert Rank(level) >= Rank(PartialOutage);
    }
  }

  ghost function Built(posts: seq<Post>, polls: seq<Poll>, logged: seq<Key>, w: Window): seq<Impairment> {
    FromPosts(posts, w) + FromLog(LogAfter(polls), logged, w)
  }

  lemma BuiltIsBounded(posts: seq<Post>, polls: seq<Poll>, logged: seq<Key>, w: Window)
    requires WellTimed(polls) && NoFuture(posts, polls, w.now)
    ensures Bounded(Built(posts, polls, logged, w), w)
  {
    var log := LogAfter(polls);
    LogIsChangesInOrder(polls);
    forall i | 0 <= i < |log| ensures log[i].at <= w.now {
      var q :| 0 <= q < |polls| && OfTurn(log[i], polls[q].turns);
    }
    BuiltImpairmentsAreBounded(posts, log, logged, w);
  }

  /** An impairment of the entry of this rank covers `t`. */
  ghost predicate CoveredBy(impairments: seq<Impairment>, keys: set<Key>, t: int, r: nat) {
    exists im :: im in impairments && Concerns(im, keys) && Covers(im, t) && Rank(im.level) >= r
  }

  /** Before now, the impairments of an entry are exactly what was observed of its components or posted about them. */
  lemma CoveredIsReported(posts: seq<Post>, polls: seq<Poll>, logged: seq<Key>, w: Window, keys: set<Key>, t: int, r: nat)
    requires WellTimed(polls) && KeysComplete(LogAfter(polls), logged, w) && InWindow(w, t) && r > 0
    ensures CoveredBy(Built(posts, polls, logged, w), keys, t, r) <==> Reported(posts, polls, keys, t, r)
  {
    var log, all := LogAfter(polls), Built(posts, polls, logged, w);
    LogIsChangesInOrder(polls);
    if im :| im in all && Concerns(im, keys) && Covers(im, t) && Rank(im.level) >= r {
      var k :| k in im.keys * keys;
      ImpairmentsAreExact(posts, log, logged, w, k, t, im.level);
      SaysIsImpaired(posts, polls, k, t, im.level);
      assert Says(posts, polls, k, t, im.level);
    }
    if k, level :| k in keys && Says(posts, polls, k, t, level) && Rank(level) >= r {
      ImpairmentsAreExact(posts, log, logged, w, k, t, level);
      SaysIsImpaired(posts, polls, k, t, level);
      var im :| im in all && k in im.keys && Covers(im, t) && im.level == level;
      assert k in im.keys * keys;
    }
  }

  lemma DownIsCovered(impairments: seq<Impairment>, keys: set<Key>, t: int)
    ensures t in DownAt(impairments, keys) <==> t >= -1 && CoveredBy(impairments, keys, t, Rank(PartialOutage))
  {
    DownAtPointwise(impairments, keys, t);
  }

  /**
   * The downtime of a component, or of a group, is the number of instants of the window before
   * now at which a poll or an active post has one of its components in a partial or major outage.
   */
  lemma DowntimeIsOutageTime(posts: seq<Post>, polls: seq<Poll>, logged: seq<Key>, w: Window, keys: set<Key>)
    requires WellTimed(polls) && NoFuture(posts, polls, w.now) && KeysComplete(LogAfter(polls), logged, w)
    ensures Downtime(Built(posts, polls, logged, w), keys) == |OutageInstants(posts, polls, keys, w)|
  {
    var all := Built(posts, polls, logged, w);
    BuiltIsBounded(posts, polls, logged, w);
    forall t ensures t in DownAt(all, keys) <==> t in OutageInstants(posts, polls, keys, w) {
      DownIsCovered(all, keys, t);
      OutageIsReported(posts, polls, keys, t);
      if InWindow(w, t) {
        CoveredIsReported(posts, polls, logged, w, keys, t, Rank(PartialOutage));
      }
    }
    assert DownAt(all, keys) == OutageInstants(posts, polls, keys, w);
  }

  /** Some instant of the day, in the window and before now, has one of the components at the rank or worse; or the live status has. */
  ghost predicate ReachedOn(posts: seq<Post>, polls: seq<Poll>, e: Entry, w: Window, day: nat, r: nat) {
    var dayStart := w.start + day * 86_400_000;
    || r == 0
    || (exists t :: dayStart <= t < dayStart + 86_400_000 && InWindow(w, t) && Reported(posts, polls, e.keys, t, r))
    || (dayStart <= w.now < dayStart + 86_400_000 && Rank(e.status) >= r)
  }

  /** The bar of a day is the worst level observed or posted at some instant of that day, or shown live today. */
  ghost predicate WorstOfDay(bar: Level, posts: seq<Post>, polls: seq<Poll>, e: Entry, w: Window, day: nat) {
    forall r: nat :: Rank(bar) >= r <==> ReachedOn(posts, polls, e, w, day, r)
  }

  lemma BarReachesOn(posts: seq<Post>, polls: seq<Poll>, logged: seq<Key>, w: Window, e: Entry, day: nat, r: nat)
    requires WellTimed(polls) && NoFuture(posts, polls, w.now) && KeysComplete(LogAfter(polls), logged, w)
    ensures Rank(Bar(Built(posts, polls, logged, w), e, w.start + day * DAY_MS, w.now)) >= r
       <==> ReachedOn(posts, polls, e, w, day, r)
  {
    var all, dayStart := Built(posts, polls, logged, w), w.start + day * DAY_MS;
    BuiltIsBounded(posts, polls, logged, w);
    BarReaches(all, e, dayStart, w.now, r);
    if r > 0 {
      if im :| im in all && Concerns(im, e.keys) && Overlaps(im, dayStart) && Rank(im.level) >= r {
        var t := Max(im.span.start, dayStart);
        assert CoveredBy(all, e.keys, t, r);
        CoveredIsReported(posts, polls, logged, w, e.keys, t, r);
      }
      if t :| dayStart <= t < dayStart + DAY_MS && InWindow(w, t) && Reported(posts, polls, e.keys, t, r) {
        CoveredIsReported(posts, polls, logged, w, e.keys, t, r);
        var im :| im in all && Concerns(im, e.keys) && Covers(im, t) && Rank(im.level) >= r;
        assert Overlaps(im, dayStart);
      }
    }
  }

  lemma BarIsWorstOfDay(posts: seq<Post>, polls: seq<Poll>, logged: seq<Key>, w: Window, e: Entry, day: nat)
    requires WellTimed(polls) && NoFuture(posts, polls, w.now) && KeysComplete(LogAfter(polls), logged, w)
    ensures WorstOfDay(Bar(Built(posts, polls, logged, w), e, w.start + day * DAY_MS, w.now), posts, polls, e, w, day)
  {
    forall r: nat
      ensures Rank(Bar(Built(posts, polls, logged, w), e, w.start + day * DAY_MS, w.now)) >= r
         <==> ReachedOn(posts, polls, e, w, day, r)
    {
      BarReachesOn(posts, polls, logged, w, e, day, r);
    }
  }

  /** The share, in percent, of the instants passed that were not down; 100 before any has passed. */
  ghost predicate TellsUptime(uptime: real, posts: seq<Post>, polls: seq<Poll>, e: Entry, w: Window) {
    var passed := |Passed(w.start, w.start + w.days * 86_400_000, w.now)|;
    var down := |OutageInstants(posts, polls, e.keys, w)|;
    uptime == if passed == 0 then 100.0 else 100.0 * (passed - down) as real / passed as real
  }

  /** What has passed bounds the outage. */
  lemma OutageHasPassed(posts: seq<Post>, polls: seq<Poll>, keys: set<Key>, w: Window)
    ensures |OutageInstants(posts, polls, keys, w)| <= |Passed(w.start, w.start + w.days * 86_400_000, w.now)|
  {
    SubsetSize(OutageInstants(posts, polls, keys, w), Passed(w.start, w.start + w.days * 86_400_000, w.now));
  }

  /** In outage at every instant that has passed, a component has no uptime. */
  lemma AlwaysDownIsZero(posts: seq<Post>, polls: seq<Poll>, keys: set<Key>, w: Window)
    requires w.start >= -1 && w.start < w.now && w.days > 0
    requires forall t <- Passed(w.start, w.start + w.days * 86_400_000, w.now) :: InOutage(posts, polls, keys, t)
    ensures UptimeOf(|OutageInstants(posts, polls, keys, w)|, w) == 0.0
  {
    var passed := Passed(w.start, w.start + w.days * 86_400_000, w.now);
    forall t | t in passed ensures t in OutageInstants(posts, polls, keys, w) {
    }
    assert OutageInstants(posts, polls, keys, w) == passed;
    assert w.start in passed;
    UptimeIsShare(|passed|, w);
  }

  /** An entry's history says what was observed and posted. */
  ghost predicate Tells(h: History, posts: seq<Post>, polls: seq<Poll>, e: Entry, w: Window) {
    && TellsUptime(h.uptime, posts, polls, e, w)
    && |h.bars| == w.days && forall day :: 0 <= day < w.days ==> WorstOfDay(h.bars[day], posts, polls, e, w, day)
  }

  /** One entry of the loop of componentHistories. */
  method EntryHistory(impairments: seq<Impairment>, e: Entry, w: Window, ghost posts: seq<Post>, ghost polls: seq<Poll>,
                      ghost logged: seq<Key>)
    returns (h: History)
    requires impairments == Built(posts, polls, logged, w)
    requires WellTimed(polls) && NoFuture(posts, polls, w.now) && KeysComplete(LogAfter(polls), logged, w)
    ensures Tells(h, posts, polls, e, w)
  {
    var uptime, bars := ComponentHistory(impairments, e, w);
    h := History(uptime, bars);
    DowntimeIsOutageTime(posts, polls, logged, w, e.keys);
    OutageHasPassed(posts, polls, e.keys, w);
    forall day | 0 <= day < w.days ensures WorstOfDay(h.bars[day], posts, polls, e, w, day) {
      BarIsWorstOfDay(posts, polls, logged, w, e, day);
    }
  }

  /** The histories so far are those of the first entries. */
  ghost predicate TellAll(out: seq<History>, posts: seq<Post>, polls: seq<Poll>, entries: seq<Entry>, w: Window) {
    |out| <= |entries| && forall i :: 0 <= i < |out| ==> Tells(out[i], posts, polls, entries[i], w)
  }

  lemma TellsOneMore(out: seq<History>, h: History, posts: seq<Post>, polls: seq<Poll>, entries: seq<Entry>, w: Window)
    requires TellAll(out, posts, polls, entries, w) && |out| < |entries| && Tells(h, posts, polls, entries[|out|], w)
    ensures TellAll(out + [h], posts, polls, entries, w)
  {
  }

  /** componentHistories: from the rows of its two queries to the bars and the uptime of every entry. */
  method ComponentHistories(entries: seq<Entry>, posts: seq<Post>, log: seq<LogRow>, logged: seq<Key>, w: Window,
                            ghost polls: seq<Poll>)
    returns (out: seq<History>)
    requires log == LogAfter(polls) && WellTimed(polls) && NoFuture(posts, polls, w.now) && KeysComplete(log, logged, w)
    ensures |out| == |entries|
    ensures forall i :: 0 <= i < |entries| ==> Tells(out[i], posts, polls, entries[i], w)
  {
    var impairments := BuildImpairments(posts, log, logged, w);
    out := [];
    for i := 0 to |entries|
      invariant |out| == i && TellAll(out, posts, polls, entries, w)
    {
      var h := EntryHistory(impairments, entries[i], w, posts, polls, logged);
      TellsOneMore(out, h, posts, polls, entries, w);
      out := out + [h];
    }
  }
}
