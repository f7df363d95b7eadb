/**
 * Day bars and uptime of one history entry (a component, or a group with all its members'
 * keys), and what relates a group to its members.
 */
module StatusBars {
  import opened Wrappers
  import opened StatusLevels
  import opened StatusLog
  import opened Sets
  import opened Intervals
  import opened StatusHistory

  datatype Entry = Entry(keys: set<Key>, status: Level)

  // ----- what one entry shows

  predicate Concerns(im: Impairment, keys: set<Key>) {
    im.keys * keys != {}
  }

  function Mine(impairments: seq<Impairment>, keys: set<Key>): (r: seq<Impairment>)
    ensures forall im :: im in r <==> im in impairments && Concerns(im, keys)
  {
    if impairments == [] then []
    else
      var n := |impairments| - 1;
      Mine(impairments[..n], keys) + if Concerns(impairments[n], keys) then [impairments[n]] else []
  }

  predicate Overlaps(im: Impairment, dayStart: int) {
    im.span.start < dayStart + DAY_MS && im.span.end > dayStart
  }

  predicate IsToday(dayStart: int, now: int) {
    dayStart + DAY_MS > now && dayStart <= now
  }

  function Fold(mine: seq<Impairment>, dayStart: int): Level {
    if mine == [] then Operational
    else
      var n := |mine| - 1;
      if Overlaps(mine[n], dayStart) then Worse(Fold(mine[..n], dayStart), mine[n].level) else Fold(mine[..n], dayStart)
  }

  function Bar(impairments: seq<Impairment>, e: Entry, dayStart: int, now: int): Level {
    var level := Fold(Mine(impairments, e.keys), dayStart);
    if IsToday(dayStart, now) then Worse(level, e.status) else level
  }

  function DownSpans(mine: seq<Impairment>): (r: seq<Span>)
    ensures forall s :: s in r <==> exists im :: im in mine && IsDown(im.level) && im.span == s
  {
    if mine == [] then []
    else
      var n := |mine| - 1;
      assert mine == mine[..n] + [mine[n]];
      assert forall im :: im in mine <==> im in mine[..n] || im == mine[n];
      DownSpans(mine[..n]) + if IsDown(mine[n].level) then [mine[n].span] else []
  }

  ghost function DownAt(impairments: seq<Impairment>, keys: set<Key>): set<int> {
    Seen(Covered(DownSpans(Mine(impairments, keys))))
  }

  ghost function Downtime(impairments: seq<Impairment>, keys: set<Key>): nat {
    |DownAt(impairments, keys)|
  }

  function Elapsed(w: Window): int {
    Min(w.End(), w.now) - w.start
  }

  function UptimeOf(downtime: int, w: Window): real {
    if Elapsed(w) > 0 then
      var up := 1.0 - downtime as real / Elapsed(w) as real;
      (if up > 0.0 then up else 0.0) * 100.0
    else 100.0
  }

  /** The instants of the window that have passed. */
  ghost function Passed(start: int, end: int, now: int): (r: set<int>)
    ensures forall t :: t in r <==> start <= t < end && t < now
  {
    Between(start, if now < end then now else end)
  }

  lemma ElapsedInstants(w: Window)
    ensures |Passed(w.start, w.start + w.days * 86_400_000, w.now)| == if Elapsed(w) > 0 then Elapsed(w) else 0
  {
    BetweenSize(w.start, Min(w.End(), w.now));
  }

  /**
   * Uptime in percent: of the instants of the window that have passed, those that are not down;
   * 100 before any has, and 0 when more are down than have passed.
   */
  lemma UptimeIsShare(down: nat, w: Window)
    ensures var passed := |Passed(w.start, w.start + w.days * 86_400_000, w.now)|;
            UptimeOf(down, w) == if passed == 0 then 100.0
                                 else if down > passed then 0.0
                                 else 100.0 * (passed - down) as real / passed as real
  {
    ElapsedInstants(w);
    var passed := |Passed(w.start, w.start + w.days * 86_400_000, w.now)|;
    if passed > 0 {
      ShareOf(down, passed);
    }
  }

  lemma ShareOf(d: nat, n: nat)
    requires n > 0
    ensures (1.0 - d as real / n as real) * 100.0 == 100.0 * (n - d) as real / n as real
    ensures 1.0 - d as real / n as real > 0.0 <==> d < n
  {
    var x, y := d as real / n as real, 100.0 * (n - d) as real / n as real;
    assert x * n as real == d as real && y * n as real == 100.0 * (n - d) as real;
    SameProduct((1.0 - x) * 100.0, y, n as real);
  }

  lemma SameProduct(x: real, y: real, n: real)
    requires n > 0.0 && x * n == y * n
    ensures x == y
  {
    assert (x - y) * n == 0.0;
  }

  method ComponentHistory(impairments: seq<Impairment>, e: Entry, w: Window)
    returns (uptime: real, history: seq<Level>)
    ensures |history| == w.days
    ensures forall i :: 0 <= i < w.days ==> history[i] == Bar(impairments, e, w.start + i * DAY_MS, w.now)
    ensures uptime == UptimeOf(Downtime(impairments, e.keys), w)
    ensures var passed := |Passed(w.start, w.start + w.days * 86_400_000, w.now)|;
            var down := Downtime(impairments, e.keys);
            uptime == if passed == 0 then 100.0 else if down > passed then 0.0
                      else 100.0 * (passed - down) as real / passed as real
  {
    var mine := Mine(impairments, e.keys);
    history := [];
    for i := 0 to w.days
      invariant |history| == i
      invariant forall j :: 0 <= j < i ==> history[j] == Bar(impairments, e, w.start + j * DAY_MS, w.now)
    {
      var dayStart := w.start + i * DAY_MS;
      var level := Operational;
      for k := 0 to |mine|
        invariant level == Fold(mine[..k], dayStart)
      {
        assert mine[..k + 1][..k] == mine[..k];
        if Overlaps(mine[k], dayStart) && Rank(mine[k].level) > Rank(level) {
          level := mine[k].level;
        }
      }
      assert mine[..|mine|] == mine;
      if IsToday(dayStart, w.now) && Rank(e.status) > Rank(level) {
        level := e.status;
      }
      history := history + [level];
    }
    var down := UnionLength(DownSpans(mine));
    UptimeIsShare(down, w);
    uptime := UptimeOf(down, w);
  }

  // ----- a bar is the worst of what overlaps its day

  /** `r` is reached by some impairment of the entry on that day, or by the live status if it is today. */
  ghost predicate Reaches(impairments: seq<Impairment>, e: Entry, dayStart: int, now: int, r: nat) {
    || r == 0
    || (exists im :: im in impairments && Concerns(im, e.keys) && Overlaps(im, dayStart) && Rank(im.level) >= r)
    || (IsToday(dayStart, now) && Rank(e.status) >= r)
  }

  lemma {:induction false} FoldReaches(mine: seq<Impairment>, dayStart: int, r: nat)
    ensures Rank(Fold(mine, dayStart)) >= r <==>
            r == 0 || exists im :: im in mine && Overlaps(im, dayStart) && Rank(im.level) >= r
    decreases |mine|
  {
    if mine != [] {
      var n := |mine| - 1;
      FoldReaches(mine[..n], dayStart, r);
      assert mine == mine[..n] + [mine[n]];
    }
  }

  lemma BarReaches(impairments: seq<Impairment>, e: Entry, dayStart: int, now: int, r: nat)
    ensures Rank(Bar(impairments, e, dayStart, now)) >= r <==> Reaches(impairments, e, dayStart, now, r)
  {
    var mine := Mine(impairments, e.keys);
    FoldReaches(mine, dayStart, r);
    if im :| im in impairments && Concerns(im, e.keys) && Overlaps(im, dayStart) && Rank(im.level) >= r {
      assert im in mine;
    }
    if im :| im in mine && Overlaps(im, dayStart) && Rank(im.level) >= r {
      assert Concerns(im, e.keys);
    }
  }

  // ----- groups

  function AllKeys(members: seq<Entry>): (r: set<Key>)
    ensures forall i :: 0 <= i < |members| ==> members[i].keys <= r
    ensures forall k :: k in r ==> exists i :: 0 <= i < |members| && k in members[i].keys
  {
    if members == [] then {}
    else
      assert forall i :: 0 < i < |members| ==> members[i] == members[1..][i - 1];
      members[0].keys + AllKeys(members[1..])
  }

  function Statuses(members: seq<Entry>): seq<Level> {
    seq(|members|, i requires 0 <= i < |members| => members[i].status)
  }

  /** The history entry of a group: its members' keys, and the worst of their live statuses. */
  function GroupEntry(members: seq<Entry>): Entry {
    Entry(AllKeys(members), Worst(Statuses(members)))
  }

  function Bars(impairments: seq<Impairment>, members: seq<Entry>, dayStart: int, now: int): seq<Level> {
    seq(|members|, i requires 0 <= i < |members| => Bar(impairments, members[i], dayStart, now))
  }

  lemma GroupConcerns(im: Impairment, members: seq<Entry>)
    ensures Concerns(im, AllKeys(members)) <==> exists i :: 0 <= i < |members| && Concerns(im, members[i].keys)
  {
    if Concerns(im, AllKeys(members)) {
      var k :| k in im.keys * AllKeys(members);
      var i :| 0 <= i < |members| && k in members[i].keys;
      assert k in im.keys * members[i].keys;
    }
    if i :| 0 <= i < |members| && Concerns(im, members[i].keys) {
      var k :| k in im.keys * members[i].keys;
      assert k in im.keys * AllKeys(members);
    }
  }

  lemma GroupReaches(impairments: seq<Impairment>, members: seq<Entry>, dayStart: int, now: int, r: nat)
    ensures Reaches(impairments, GroupEntry(members), dayStart, now, r) <==>
            r == 0 || exists i :: 0 <= i < |members| && Reaches(impairments, members[i], dayStart, now, r)
  {
    WorstIsLeastBound(Statuses(members));
    if r > 0 {
      if im :| im in impairments && Concerns(im, AllKeys(members)) && Overlaps(im, dayStart) && Rank(im.level) >= r {
        GroupConcerns(im, members);
        var i :| 0 <= i < |members| && Concerns(im, members[i].keys);
        assert Reaches(impairments, members[i], dayStart, now, r);
      } else if IsToday(dayStart, now) && Rank(Worst(Statuses(members))) >= r {
        var i :| 0 <= i < |members| && Statuses(members)[i] == Worst(Statuses(members));
        assert Reaches(impairments, members[i], dayStart, now, r);
      }
      if i :| 0 <= i < |members| && Reaches(impairments, members[i], dayStart, now, r) {
        if im :| im in impairments && Concerns(im, members[i].keys) && Overlaps(im, dayStart) && Rank(im.level) >= r {
          GroupConcerns(im, members);
        } else {
          assert Rank(Statuses(members)[i]) >= r;
        }
      }
    }
  }

  lemma GroupBarReaches(impairments: seq<Impairment>, members: seq<Entry>, dayStart: int, now: int, r: nat)
    ensures Rank(Bar(impairments, GroupEntry(members), dayStart, now)) >= r
       <==> Rank(Worst(Bars(impairments, members, dayStart, now))) >= r
  {
    var bars := Bars(impairments, members, dayStart, now);
    WorstIsLeastBound(bars);
    BarReaches(impairments, GroupEntry(members), dayStart, now, r);
    GroupReaches(impairments, members, dayStart, now, r);
    if r > 0 && Rank(Worst(bars)) >= r {
      var i :| 0 <= i < |bars| && bars[i] == Worst(bars);
      BarReaches(impairments, members[i], dayStart, now, r);
    }
    if i :| 0 <= i < |members| && Reaches(impairments, members[i], dayStart, now, r) {
      BarReaches(impairments, members[i], dayStart, now, r);
      assert Rank(bars[i]) >= r;
    }
  }

  /** On every day, today's live status included, a group's bar is the worst of its members' bars. */
  lemma GroupBarIsWorst(impairments: seq<Impairment>, members: seq<Entry>, dayStart: int, now: int)
    ensures Bar(impairments, GroupEntry(members), dayStart, now) == Worst(Bars(impairments, members, dayStart, now))
  {
    var a := Bar(impairments, GroupEntry(members), dayStart, now);
    var b := Worst(Bars(impairments, members, dayStart, now));
    GroupBarReaches(impairments, members, dayStart, now, Rank(a));
    GroupBarReaches(impairments, members, dayStart, now, Rank(b));
  }

  lemma DownAtPointwise(impairments: seq<Impairment>, keys: set<Key>, t: int)
    ensures t in DownAt(impairments, keys) <==>
            t >= -1 && exists im :: im in impairments && Concerns(im, keys) && IsDown(im.level) && Covers(im, t)
  {
    var spans := DownSpans(Mine(impairments, keys));
    CoveredPointwise(spans, t);
    if i :| 0 <= i < |spans| && spans[i].start <= t < spans[i].end {
      assert spans[i] in spans;
      var im :| im in Mine(impairments, keys) && IsDown(im.level) && im.span == spans[i];
      assert Covers(im, t);
    }
    if im :| im in impairments && Concerns(im, keys) && IsDown(im.level) && Covers(im, t) {
      assert im in Mine(impairments, keys);
      assert im.span in spans;
      var i :| 0 <= i < |spans| && spans[i] == im.span;
    }
  }

  /** A group is down exactly when some member is. */
  lemma GroupDownWhenAnyMemberIs(impairments: seq<Impairment>, members: seq<Entry>, t: int)
    ensures t in DownAt(impairments, AllKeys(members)) <==>
            exists i :: 0 <= i < |members| && t in DownAt(impairments, members[i].keys)
  {
    DownAtPointwise(impairments, AllKeys(members), t);
    if t in DownAt(impairments, AllKeys(members)) {
      var im :| im in impairments && Concerns(im, AllKeys(members)) && IsDown(im.level) && Covers(im, t);
      GroupConcerns(im, members);
      var i :| 0 <= i < |members| && Concerns(im, members[i].keys);
      DownAtPointwise(impairments, members[i].keys, t);
    }
    if i :| 0 <= i < |members| && t in DownAt(impairments, members[i].keys) {
      DownAtPointwise(impairments, members[i].keys, t);
      var im :| im in impairments && Concerns(im, members[i].keys) && IsDown(im.level) && Covers(im, t);
      GroupConcerns(im, members);
    }
  }

  ghost function SumDown(impairments: seq<Impairment>, members: seq<Entry>): nat {
    if members == [] then 0 else Downtime(impairments, members[0].keys) + SumDown(impairments, members[1..])
  }

  lemma {:induction false} GroupDowntimeAtMostSum(impairments: seq<Impairment>, members: seq<Entry>)
    ensures Downtime(impairments, AllKeys(members)) <= SumDown(impairments, members)
    decreases |members|
  {
    if members == [] {
      forall t ensures t !in DownAt(impairments, AllKeys(members)) {
        GroupDownWhenAnyMemberIs(impairments, members, t);
      }
      assert DownAt(impairments, AllKeys(members)) == {};
    } else {
      var first, rest := DownAt(impairments, members[0].keys), DownAt(impairments, AllKeys(members[1..]));
      GroupDowntimeAtMostSum(impairments, members[1..]);
      forall t | t in DownAt(impairments, AllKeys(members)) ensures t in first + rest {
        GroupDownWhenAnyMemberIs(impairments, members, t);
        GroupDownWhenAnyMemberIs(impairments, members[1..], t);
        var i :| 0 <= i < |members| && t in DownAt(impairments, members[i].keys);
        assert i > 0 ==> members[1..][i - 1] == members[i];
      }
      SubsetSize(DownAt(impairments, AllKeys(members)), first + rest);
      assert |first + rest| + |first * rest| == |first| + |rest|;
    }
  }

  lemma GroupDowntimeAtLeastMember(impairments: seq<Impairment>, members: seq<Entry>, i: nat)
    requires i < |members|
    ensures Downtime(impairments, members[i].keys) <= Downtime(impairments, AllKeys(members))
  {
    forall t | t in DownAt(impairments, members[i].keys) ensures t in DownAt(impairments, AllKeys(members)) {
      GroupDownWhenAnyMemberIs(impairments, members, t);
    }
    SubsetSize(DownAt(impairments, members[i].keys), DownAt(impairments, AllKeys(members)));
  }

  // ----- uptime

  /** Spans lie in the window and not in the future. */
  ghost predicate Bounded(impairments: seq<Impairment>, w: Window) {
    forall im :: im in impairments ==>
      && w.start <= im.span.start < im.span.end
      && im.span.end <= Min(w.End(), w.now)
  }

  function Uptime(downtime: int, w: Window): real
    requires Elapsed(w) > 0
  {
    (1.0 - downtime as real / Elapsed(w) as real) * 100.0
  }

  lemma DowntimeBounded(impairments: seq<Impairment>, keys: set<Key>, w: Window)
    requires Bounded(impairments, w) && Elapsed(w) >= 0
    ensures Downtime(impairments, keys) <= Elapsed(w)
  {
    var window := Between(w.start, Min(w.End(), w.now));
    forall t | t in DownAt(impairments, keys) ensures t in window {
      DownAtPointwise(impairments, keys, t);
    }
    SubsetSize(DownAt(impairments, keys), window);
    BetweenSize(w.start, Min(w.End(), w.now));
  }

  lemma FractionBounds(a: int, b: int)
    requires 0 <= a <= b && 0 < b
    ensures 0.0 <= a as real / b as real <= 1.0
  {
  }

  lemma FractionGrows(a: int, a': int, b: int)
    requires a <= a' && 0 < b
    ensures a as real / b as real <= a' as real / b as real
  {
  }

  /** a of b, in percent. */
  function Percent(a: int, b: int): real
    requires 0 < b
  {
    a as real / b as real * 100.0
  }

  lemma PercentAdds(a: int, a': int, b: int)
    requires 0 < b
    ensures Percent(a, b) + Percent(a', b) == Percent(a + a', b)
  {
  }

  lemma NoDowntimeIsFullUptime(w: Window)
    ensures UptimeOf(0, w) == 100.0
  {
  }

  /** With no timestamp in the future, uptime is a percentage and the clamp at zero never acts. */
  lemma UptimeNeedsNoClamp(impairments: seq<Impairment>, keys: set<Key>, w: Window)
    requires Bounded(impairments, w) && Elapsed(w) > 0
    ensures UptimeOf(Downtime(impairments, keys), w) == Uptime(Downtime(impairments, keys), w)
    ensures 0.0 <= UptimeOf(Downtime(impairments, keys), w) <= 100.0
  {
    DowntimeBounded(impairments, keys, w);
    FractionBounds(Downtime(impairments, keys), Elapsed(w));
  }

  lemma LossIsPercent(impairments: seq<Impairment>, keys: set<Key>, w: Window)
    requires Bounded(impairments, w) && Elapsed(w) > 0
    ensures 100.0 - UptimeOf(Downtime(impairments, keys), w) == Percent(Downtime(impairments, keys), Elapsed(w))
  {
    UptimeNeedsNoClamp(impairments, keys, w);
  }

  /** What the members lose together, in percent. */
  ghost function SumLoss(impairments: seq<Impairment>, members: seq<Entry>, w: Window): real {
    if members == [] then 0.0
    else Loss(impairments, members[0].keys, w) + SumLoss(impairments, members[1..], w)
  }

  ghost function Loss(impairments: seq<Impairment>, keys: set<Key>, w: Window): real {
    100.0 - UptimeOf(Downtime(impairments, keys), w)
  }

  lemma {:induction false} SumLossIsSumDown(impairments: seq<Impairment>, members: seq<Entry>, w: Window)
    requires Bounded(impairments, w) && Elapsed(w) > 0
    ensures SumLoss(impairments, members, w) == Percent(SumDown(impairments, members), Elapsed(w))
    decreases |members|
  {
    if members != [] {
      SumLossIsSumDown(impairments, members[1..], w);
      LossIsPercent(impairments, members[0].keys, w);
      PercentAdds(Downtime(impairments, members[0].keys), SumDown(impairments, members[1..]), Elapsed(w));
    }
  }

  /** A group is up at most as long as each member, and loses at most what they lose together. */
  lemma GroupUptime(impairments: seq<Impairment>, members: seq<Entry>, w: Window, i: nat)
    requires Bounded(impairments, w) && Elapsed(w) > 0 && i < |members|
    ensures var up := UptimeOf(Downtime(impairments, GroupEntry(members).keys), w);
            && up <= UptimeOf(Downtime(impairments, members[i].keys), w)
            && 100.0 - up <= SumLoss(impairments, members, w)
  {
    var down := Downtime(impairments, AllKeys(members));
    UptimeNeedsNoClamp(impairments, AllKeys(members), w);
    UptimeNeedsNoClamp(impairments, members[i].keys, w);
    GroupDowntimeAtLeastMember(impairments, members, i);
    FractionGrows(Downtime(impairments, members[i].keys), down, Elapsed(w));
    GroupDowntimeAtMostSum(impairments, members);
    SumLossIsSumDown(impairments, members, w);
    FractionGrows(down, SumDown(impairments, members), Elapsed(w));
  }

  /** An uptime below 100 shows: some day of the window is at least a partial outage. */
  lemma LostUptimeShows(impairments: seq<Impairment>, e: Entry, w: Window) returns (day: nat)
    requires Bounded(impairments, w) && Elapsed(w) > 0
    requires UptimeOf(Downtime(impairments, e.keys), w) < 100.0
    ensures day < w.days && Rank(Bar(impairments, e, w.start + day * DAY_MS, w.now)) >= Rank(PartialOutage)
  {
    NoDowntimeIsFullUptime(w);
    var t :| t in DownAt(impairments, e.keys);
    DownAtPointwise(impairments, e.keys, t);
    var im :| im in impairments && Concerns(im, e.keys) && IsDown(im.level) && Covers(im, t);
    day := (t - w.start) / DAY_MS;
    assert Overlaps(im, w.start + day * DAY_MS);
    BarReaches(impairments, e, w.start + day * DAY_MS, w.now, 3);
  }

  /** Impairments built from timestamps that are not in the future are bounded. */
  lemma BuiltImpairmentsAreBounded(posts: seq<Post>, log: seq<LogRow>, keys: seq<Key>, w: Window)
    requires InOrder(log)
    requires forall i :: 0 <= i < |log| ==> log[i].at <= w.now
    requires forall p :: p in posts && p.resolved.Some? ==> p.resolved.value <= w.now
    ensures Bounded(FromPosts(posts, w) + FromLog(log, keys, w), w)
  {
    forall im | im in FromPosts(posts, w) + FromLog(log, keys, w)
      ensures w.start <= im.span.start < im.span.end <= Min(w.End(), w.now)
    {
      FromPostsAre(posts, w, im);
      FromLogAre(log, keys, w, im);
      if p :| p in posts && im in FromPost(p, w) {
      } else {
        var k :| k in keys && LogGives(log, k, w, im);
        var evs := KeyEvents(log, k, w.End());
        KeyEventsShape(log, k, w.End());
        EventImpairmentsAre(evs, k, w, |evs|, im);
      }
    }
  }
}
