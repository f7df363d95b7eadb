/** teamRateLimiter of src/routes/environments.ts: fixed windows in a map, pruned when it grows. Times are milliseconds. */
module RateLimiter {

  const MAX: nat := 60
  const WINDOW_MS: int := 60_000
  const PRUNE_ABOVE: nat := 1000

  type TeamId = string

  datatype Bucket = Bucket(count: nat, resetAt: int)

  type Buckets = map<TeamId, Bucket>

  datatype Request = Request(team: TeamId, at: int)

  /** Nothing left of a window at `now`. */
  predicate Expired(m: Buckets, team: TeamId, now: int) {
    team !in m || m[team].resetAt <= now
  }

  predicate Allows(m: Buckets, r: Request) {
    Expired(m, r.team, r.at) || m[r.team].count < MAX
  }

  /** The map after a request, when nothing is ever pruned. */
  function Counted(m: Buckets, r: Request): Buckets {
    if Expired(m, r.team, r.at) then m[r.team := Bucket(1, r.at + WINDOW_MS)]
    else if m[r.team].count >= MAX then m
    else m[r.team := m[r.team].(count := m[r.team].count + 1)]
  }

  function Pruned(m: Buckets, now: int): Buckets {
    map team | team in m && m[team].resetAt > now :: m[team]
  }

  /** The map the limiter keeps. */
  function Stepped(m: Buckets, r: Request): Buckets {
    var m' := Counted(m, r);
    if Expired(m, r.team, r.at) && |m'| > PRUNE_ABOVE then Pruned(m', r.at) else m'
  }

  class TeamRateLimiter {
    var buckets: Buckets

    constructor ()
      ensures buckets == map[]
    {
      buckets := map[];
    }

    method Allow(team: TeamId, now: int) returns (allowed: bool)
      modifies this
      ensures allowed <==> Allows(old(buckets), Request(team, now))
      ensures buckets == Stepped(old(buckets), Request(team, now))
    {
      if team !in buckets || buckets[team].resetAt <= now {
        buckets := buckets[team := Bucket(1, now + WINDOW_MS)];
        if |buckets| > PRUNE_ABOVE {
          Prune(now);
        }
        return true;
      }
      if buckets[team].count >= MAX {
        return false;
      }
      buckets := buckets[team := buckets[team].(count := buckets[team].count + 1)];
      return true;
    }

    /** Deletes the entries whose window is over, one by one. */
    method Prune(now: int)
      modifies this
      ensures buckets == Pruned(old(buckets), now)
    {
      var rest := buckets.Keys;
      while rest != {}
        invariant rest <= buckets.Keys <= old(buckets.Keys)
        invariant forall team <- buckets :: buckets[team] == old(buckets)[team]
        invariant forall team <- old(buckets) :: team in buckets <==> team in rest || old(buckets)[team].resetAt > now
        decreases rest
      {
        var team :| team in rest;
        rest := rest - {team};
        if buckets[team].resetAt <= now {
          buckets := buckets - {team};
        }
      }
    }
  }

  // ----- request sequences

  /** The clock never runs backwards. */
  ghost predicate Timely(rs: seq<Request>) {
    forall i, j :: 0 <= i < j < |rs| ==> rs[i].at <= rs[j].at
  }

  /** The map after a sequence of requests, with and without pruning. */
  function Kept(rs: seq<Request>): Buckets {
    if rs == [] then map[] else Stepped(Kept(rs[..|rs| - 1]), rs[|rs| - 1])
  }

  function Unpruned(rs: seq<Request>): Buckets {
    if rs == [] then map[] else Counted(Unpruned(rs[..|rs| - 1]), rs[|rs| - 1])
  }

  /** Whether the limiter admitted the i-th request. */
  predicate Admitted(rs: seq<Request>, i: nat)
    requires i < |rs|
  {
    Allows(Kept(rs[..i]), rs[i])
  }

  /**
   * A request that opens a window when more than 1000 entries would be kept drops exactly the
   * entries whose window is over; no other request drops any.
   */
  lemma PrunesExactly(m: Buckets, r: Request)
    ensures var kept := Stepped(m, r);
            if (r.team !in m || m[r.team].resetAt <= r.at) && |m.Keys + {r.team}| > 1000 then
              && (forall team :: team in kept <==> team == r.team || (team in m && m[team].resetAt > r.at))
              && kept[r.team] == Bucket(1, r.at + 60_000)
              && (forall team <- kept :: team != r.team ==> kept[team] == m[team])
            else
              kept.Keys == m.Keys + {r.team} && forall team <- m :: team != r.team ==> kept[team] == m[team]
  {
    assert |Counted(m, r)| == |Counted(m, r).Keys|;
    assert r.team !in m || m[r.team].resetAt <= r.at ==> Counted(m, r).Keys == m.Keys + {r.team};
  }

  // ----- pruning is invisible

  /** The maps agree on every window that is not over. */
  ghost predicate SameLive(a: Buckets, b: Buckets, now: int) {
    forall team :: (Expired(a, team, now) <==> Expired(b, team, now)) && (!Expired(a, team, now) ==> a[team] == b[team])
  }

  lemma SameLater(a: Buckets, b: Buckets, now: int, later: int)
    requires SameLive(a, b, now) && now <= later
    ensures SameLive(a, b, later)
  {
    forall team ensures (Expired(a, team, later) <==> Expired(b, team, later)) && (!Expired(a, team, later) ==> a[team] == b[team]) {
      assert Expired(a, team, now) <==> Expired(b, team, now);
    }
  }

  lemma StepStaysSame(a: Buckets, b: Buckets, r: Request)
    requires SameLive(a, b, r.at)
    ensures Allows(a, r) <==> Allows(b, r)
    ensures SameLive(Stepped(a, r), Counted(b, r), r.at)
  {
    assert Expired(a, r.team, r.at) <==> Expired(b, r.team, r.at);
    var a', b' := Counted(a, r), Counted(b, r);
    forall team
      ensures (Expired(a', team, r.at) <==> Expired(b', team, r.at)) && (!Expired(a', team, r.at) ==> a'[team] == b'[team])
    {
      assert Expired(a, team, r.at) <==> Expired(b, team, r.at);
    }
    assert SameLive(Pruned(a', r.at), b', r.at) by {
      forall team
        ensures Expired(Pruned(a', r.at), team, r.at) <==> Expired(b', team, r.at)
        ensures !Expired(a', team, r.at) ==> Pruned(a', r.at)[team] == b'[team]
      {
        assert Expired(a', team, r.at) <==> Expired(b', team, r.at);
      }
    }
  }

  lemma {:induction false} KeptIsUnpruned(rs: seq<Request>, now: int)
    requires Timely(rs) && forall i :: 0 <= i < |rs| ==> rs[i].at <= now
    ensures SameLive(Kept(rs), Unpruned(rs), now)
    decreases |rs|
  {
    if rs != [] {
      var before, r := rs[..|rs| - 1], rs[|rs| - 1];
      KeptIsUnpruned(before, r.at);
      StepStaysSame(Kept(before), Unpruned(before), r);
      SameLater(Kept(rs), Unpruned(rs), r.at, now);
    }
  }

  /** Every request gets the decision a limiter that never prunes would give it. */
  lemma PruningNeverDecides(rs: seq<Request>, i: nat)
    requires Timely(rs) && i < |rs|
    ensures Admitted(rs, i) <==> Allows(Unpruned(rs[..i]), rs[i])
  {
    KeptIsUnpruned(rs[..i], rs[i].at);
    StepStaysSame(Kept(rs[..i]), Unpruned(rs[..i]), rs[i]);
  }

  // ----- the windows, from the requests alone

  /** A request starts a window when no window of its team that a request before it started is still running. */
  ghost predicate Starts(rs: seq<Request>, i: nat)
    requires i < |rs|
    decreases i
  {
    forall j: nat :: j < i && rs[j].team == rs[i].team && Starts(rs, j) ==> rs[j].at + 60_000 <= rs[i].at
  }

  /** The j-th request started a window that is still running at the i-th. */
  ghost predicate Running(rs: seq<Request>, j: nat, i: nat)
    requires i < |rs|
  {
    j < i && rs[j].team == rs[i].team && Starts(rs, j) && rs[i].at < rs[j].at + 60_000
  }

  /** The requests of the team among those from the j-th to before the n-th. */
  function Asked(rs: seq<Request>, team: TeamId, j: nat, n: nat): nat
    requires n <= |rs|
  {
    if n <= j then 0 else Asked(rs, team, j, n - 1) + if rs[n - 1].team == team then 1 else 0
  }

  /** The last window started among the first n requests, in the team's bucket. */
  ghost predicate InBucket(rs: seq<Request>, n: nat, team: TeamId, j: nat)
    requires n <= |rs|
  {
    && j < n && rs[j].team == team && Starts(rs, j)
    && (forall k: nat :: j < k < n && rs[k].team == team ==> !Starts(rs, k))
    && var asked := Asked(rs, team, j, n);
       team in Unpruned(rs[..n]) && Unpruned(rs[..n])[team] == Bucket(if asked < 60 then asked else 60, rs[j].at + 60_000)
  }

  ghost predicate NoneAsked(rs: seq<Request>, n: nat, team: TeamId)
    requires n <= |rs|
  {
    team !in Unpruned(rs[..n]) && forall k: nat :: k < n ==> rs[k].team != team
  }

  lemma PrefixStep(rs: seq<Request>, n: nat)
    requires n < |rs|
    ensures Unpruned(rs[..n + 1]) == Counted(Unpruned(rs[..n]), rs[n])
  {
    assert rs[..n + 1][..n] == rs[..n];
  }

  /** Of the windows started so far only the last can be running. */
  lemma LastDecides(rs: seq<Request>, n: nat, j: nat)
    requires Timely(rs) && n < |rs| && InBucket(rs, n, rs[n].team, j)
    ensures Starts(rs, n) <==> rs[j].at + 60_000 <= rs[n].at
  {
  }

  lemma BucketStep(rs: seq<Request>, n: nat, team: TeamId, j: nat) returns (j': nat)
    requires Timely(rs) && n < |rs| && InBucket(rs, n, team, j)
    ensures InBucket(rs, n + 1, team, j')
  {
    PrefixStep(rs, n);
    j' := j;
    if rs[n].team == team {
      LastDecides(rs, n, j);
      if Starts(rs, n) {
        j' := n;
      }
    }
  }

  lemma {:induction false} BucketHolds(rs: seq<Request>, n: nat, team: TeamId) returns (j: nat)
    requires Timely(rs) && n <= |rs|
    ensures NoneAsked(rs, n, team) || InBucket(rs, n, team, j)
  {
    j := 0;
    if n > 0 {
      j := BucketHolds(rs, n - 1, team);
      if InBucket(rs, n - 1, team, j) {
        j := BucketStep(rs, n - 1, team, j);
      } else {
        PrefixStep(rs, n - 1);
        j := n - 1;
        assert Asked(rs, team, j, j) == 0;
      }
    }
  }

  lemma OnlyLastRuns(rs: seq<Request>, i: nat, j: nat, k: nat)
    requires Timely(rs) && i < |rs| && InBucket(rs, i, rs[i].team, j) && Running(rs, k, i)
    ensures k == j
  {
  }

  /** The bucket's decision. */
  lemma BucketDecides(rs: seq<Request>, i: nat, j: nat)
    requires Timely(rs) && i < |rs| && InBucket(rs, i, rs[i].team, j)
    ensures Allows(Unpruned(rs[..i]), rs[i]) <==> !(Running(rs, j, i) && Asked(rs, rs[i].team, j, i) >= 60)
  {
    LastDecides(rs, i, j);
  }

  /**
   * The limiter, from the requests alone: a request is refused exactly when it falls into a
   * running window of its team in which the team has already asked sixty times.
   */
  lemma RefusedIff(rs: seq<Request>, i: nat)
    requires Timely(rs) && i < |rs|
    ensures !Admitted(rs, i) <==> exists j :: Running(rs, j, i) && Asked(rs, rs[i].team, j, i) >= 60
  {
    PruningNeverDecides(rs, i);
    var j := BucketHolds(rs, i, rs[i].team);
    if InBucket(rs, i, rs[i].team, j) {
      BucketDecides(rs, i, j);
      forall k: nat | Running(rs, k, i) ensures k == j {
        OnlyLastRuns(rs, i, j, k);
      }
    } else {
      forall k: nat ensures !Running(rs, k, i) {
      }
    }
  }

  // ----- how many are admitted

  /** The requests of a team in [from, to) that the limiter admitted. */
  function AdmittedIn(rs: seq<Request>, team: TeamId, from: int, to: int): nat {
    if rs == [] then 0
    else
      AdmittedIn(rs[..|rs| - 1], team, from, to) +
      if InSpan(rs[|rs| - 1], team, from, to) && Admitted(rs, |rs| - 1) then 1 else 0
  }

  predicate InSpan(r: Request, team: TeamId, from: int, to: int) {
    r.team == team && from <= r.at < to
  }

  /** The same count for the limiter that never prunes. */
  function CountedIn(rs: seq<Request>, team: TeamId, from: int, to: int): nat {
    if rs == [] then 0
    else
      CountedIn(rs[..|rs| - 1], team, from, to) +
      if InSpan(rs[|rs| - 1], team, from, to) && Allows(Unpruned(rs[..|rs| - 1]), rs[|rs| - 1]) then 1 else 0
  }

  lemma {:induction false} AdmittedIsCounted(rs: seq<Request>, team: TeamId, from: int, to: int)
    requires Timely(rs)
    ensures AdmittedIn(rs, team, from, to) == CountedIn(rs, team, from, to)
    decreases |rs|
  {
    if rs != [] {
      PruningNeverDecides(rs, |rs| - 1);
      AdmittedIsCounted(rs[..|rs| - 1], team, from, to);
    }
  }

  lemma {:induction false} CountSplits(rs: seq<Request>, team: TeamId, from: int, mid: int, to: int)
    requires from <= mid <= to
    ensures CountedIn(rs, team, from, to) == CountedIn(rs, team, from, mid) + CountedIn(rs, team, mid, to)
    decreases |rs|
  {
    if rs != [] {
      CountSplits(rs[..|rs| - 1], team, from, mid, to);
    }
  }

  /**
   * From its window's start on, a team has at most its bucket's count, after that instant fewer,
   * and none at or past the window's end.
   */
  ghost predicate CountsWindow(rs: seq<Request>, team: TeamId, b: Bucket) {
    && 1 <= b.count <= MAX
    && (forall from, to :: b.resetAt - WINDOW_MS <= from ==> CountedIn(rs, team, from, to) <= b.count)
    && (forall from, to :: b.resetAt - WINDOW_MS < from ==> CountedIn(rs, team, from, to) <= b.count - 1)
    && (forall from, to :: b.resetAt <= from ==> CountedIn(rs, team, from, to) == 0)
  }

  /** The stretch of less than a window's length before the current window misses the opening of the one before. */
  ghost predicate CountsBefore(rs: seq<Request>, team: TeamId, start: int) {
    forall from, to :: start - WINDOW_MS < from && to <= start ==> CountedIn(rs, team, from, to) <= MAX - 1
  }

  /** A stretch of a window's length holds fewer than two windows' worth. */
  ghost predicate AtMostTwice(rs: seq<Request>, team: TeamId) {
    forall from, to :: to <= from + WINDOW_MS ==> CountedIn(rs, team, from, to) <= 2 * MAX - 1
  }

  ghost predicate NoneCounted(rs: seq<Request>, team: TeamId) {
    forall from, to :: CountedIn(rs, team, from, to) == 0
  }

  ghost predicate TeamOk(rs: seq<Request>, team: TeamId) {
    var m := Unpruned(rs);
    && AtMostTwice(rs, team)
    && if team in m then
         && CountsWindow(rs, team, m[team]) && CountsBefore(rs, team, m[team].resetAt - WINDOW_MS)
         && rs != [] && m[team].resetAt - WINDOW_MS <= rs[|rs| - 1].at
       else NoneCounted(rs, team)
  }

  lemma CountStep(rs: seq<Request>, r: Request, team: TeamId, from: int, to: int)
    ensures CountedIn(rs + [r], team, from, to) ==
            CountedIn(rs, team, from, to) + if InSpan(r, team, from, to) && Allows(Unpruned(rs), r) then 1 else 0
  {
    assert (rs + [r])[..|rs|] == rs;
  }

  lemma MapStep(rs: seq<Request>, r: Request)
    ensures Unpruned(rs + [r]) == Counted(Unpruned(rs), r)
  {
    assert (rs + [r])[..|rs|] == rs;
  }

  /** What is left of a team's count from the start of its window on. */
  lemma OldWindow(rs: seq<Request>, team: TeamId, now: int, from: int, to: int)
    requires TeamOk(rs, team) && Expired(Unpruned(rs), team, now) && now - WINDOW_MS < from
    ensures CountedIn(rs, team, from, to) <= MAX - 1
    ensures now <= from ==> CountedIn(rs, team, from, to) == 0
  {
  }

  /** An admitted request opens a window. */
  lemma OpensWindow(rs: seq<Request>, r: Request)
    requires TeamOk(rs, r.team) && Expired(Unpruned(rs), r.team, r.at)
    ensures TeamOk(rs + [r], r.team)
  {
    var all := rs + [r];
    MapStep(rs, r);
    forall from, to | r.at <= from ensures CountedIn(all, r.team, from, to) <= 1 {
      CountStep(rs, r, r.team, from, to);
      OldWindow(rs, r.team, r.at, from, to);
    }
    forall from, to | r.at < from ensures CountedIn(all, r.team, from, to) == 0 {
      CountStep(rs, r, r.team, from, to);
      OldWindow(rs, r.team, r.at, from, to);
    }
    forall from, to | r.at + WINDOW_MS <= from ensures CountedIn(all, r.team, from, to) == 0 {
      CountStep(rs, r, r.team, from, to);
      OldWindow(rs, r.team, r.at, from, to);
    }
    forall from, to | r.at - WINDOW_MS < from && to <= r.at ensures CountedIn(all, r.team, from, to) <= MAX - 1 {
      CountStep(rs, r, r.team, from, to);
      OldWindow(rs, r.team, r.at, from, to);
    }
    forall from, to | to <= from + WINDOW_MS ensures CountedIn(all, r.team, from, to) <= 2 * MAX - 1 {
      CountStep(rs, r, r.team, from, to);
      if InSpan(r, r.team, from, to) {
        OldWindow(rs, r.team, r.at, from, to);
      }
    }
  }

  /** A stretch that reaches into the window is what lies before its start and what lies in it. */
  lemma Straddles(rs: seq<Request>, team: TeamId, b: Bucket, from: int, to: int)
    requires CountsWindow(rs, team, b) && CountsBefore(rs, team, b.resetAt - WINDOW_MS)
    requires b.resetAt - 2 * WINDOW_MS < from && b.resetAt - WINDOW_MS <= to
    ensures CountedIn(rs, team, from, to) <= MAX - 1 + b.count
  {
    var start := b.resetAt - WINDOW_MS;
    if from < start {
      CountSplits(rs, team, from, start, to);
    }
  }

  /** An admitted request inside its window. */
  lemma FillsWindow(rs: seq<Request>, r: Request)
    requires TeamOk(rs, r.team) && !Expired(Unpruned(rs), r.team, r.at) && Unpruned(rs)[r.team].count < MAX
    requires rs != [] && rs[|rs| - 1].at <= r.at
    ensures TeamOk(rs + [r], r.team)
  {
    var all, b := rs + [r], Unpruned(rs)[r.team];
    var start := b.resetAt - WINDOW_MS;
    MapStep(rs, r);
    forall from, to | start <= from ensures CountedIn(all, r.team, from, to) <= b.count + 1 {
      CountStep(rs, r, r.team, from, to);
    }
    forall from, to | start < from ensures CountedIn(all, r.team, from, to) <= b.count {
      CountStep(rs, r, r.team, from, to);
    }
    forall from, to | b.resetAt <= from ensures CountedIn(all, r.team, from, to) == 0 {
      CountStep(rs, r, r.team, from, to);
    }
    forall from, to | start - WINDOW_MS < from && to <= start ensures CountedIn(all, r.team, from, to) <= MAX - 1 {
      CountStep(rs, r, r.team, from, to);
    }
    forall from, to | to <= from + WINDOW_MS ensures CountedIn(all, r.team, from, to) <= 2 * MAX - 1 {
      CountStep(rs, r, r.team, from, to);
      if InSpan(r, r.team, from, to) {
        Straddles(rs, r.team, b, from, to);
      }
    }
  }

  /** A refused request, or one of another team. */
  lemma LeavesTeam(rs: seq<Request>, r: Request, team: TeamId)
    requires TeamOk(rs, team) && (r.team != team || !Allows(Unpruned(rs), r))
    requires rs == [] || rs[|rs| - 1].at <= r.at
    ensures TeamOk(rs + [r], team)
  {
    var all := rs + [r];
    MapStep(rs, r);
    forall from, to ensures CountedIn(all, team, from, to) == CountedIn(rs, team, from, to) {
      CountStep(rs, r, team, from, to);
    }
  }

  lemma {:induction false} EveryTeamOk(rs: seq<Request>, team: TeamId)
    requires Timely(rs)
    ensures TeamOk(rs, team)
    decreases |rs|
  {
    if rs == [] {
      forall from, to ensures CountedIn(rs, team, from, to) == 0 {
      }
    } else {
      var before, r := rs[..|rs| - 1], rs[|rs| - 1];
      EveryTeamOk(before, team);
      assert before + [r] == rs;
      if r.team != team || !Allows(Unpruned(before), r) {
        LeavesTeam(before, r, team);
      } else if Expired(Unpruned(before), team, r.at) {
        OpensWindow(before, r);
      } else {
        FillsWindow(before, r);
      }
    }
  }

  /** In any 60-second half-open interval at most 119 requests of a team are admitted: one fewer than two windows. */
  lemma AtMost119PerMinute(rs: seq<Request>, team: TeamId, from: int)
    requires Timely(rs)
    ensures AdmittedIn(rs, team, from, from + 60_000) <= 119
  {
    EveryTeamOk(rs, team);
    AdmittedIsCounted(rs, team, from, from + WINDOW_MS);
  }

  // ----- windows

  /** The i-th request opens a window. */
  predicate Opens(rs: seq<Request>, i: nat)
    requires i < |rs|
  {
    Expired(Unpruned(rs[..i]), rs[i].team, rs[i].at)
  }

  /** A window is the current one, or it is over and nothing more falls into it. */
  lemma {:induction false} WindowFixed(rs: seq<Request>, i: nat)
    requires Timely(rs) && i < |rs| && Opens(rs, i)
    ensures var team, start := rs[i].team, rs[i].at;
            && CountedIn(rs, team, start, start + WINDOW_MS) <= MAX
            && team in Unpruned(rs)
            && (Unpruned(rs)[team].resetAt == start + WINDOW_MS || rs[|rs| - 1].at >= start + WINDOW_MS)
    decreases |rs|
  {
    var team, start := rs[i].team, rs[i].at;
    var before, r := rs[..|rs| - 1], rs[|rs| - 1];
    EveryTeamOk(rs, team);
    EveryTeamOk(before, team);
    if i < |before| {
      assert before[..i] == rs[..i];
      WindowFixed(before, i);
    } else {
      assert rs[..i] == before;
    }
    if Unpruned(rs)[team].resetAt == start + WINDOW_MS {
      assert CountedIn(rs, team, start, start + WINDOW_MS) <= Unpruned(rs)[team].count;
    }
  }

  /** Each window admits at most 60 requests. */
  lemma AtMost60PerWindow(rs: seq<Request>, i: nat)
    requires Timely(rs) && i < |rs| && Opens(rs, i)
    ensures AdmittedIn(rs, rs[i].team, rs[i].at, rs[i].at + 60_000) <= 60
  {
    WindowFixed(rs, i);
    AdmittedIsCounted(rs, rs[i].team, rs[i].at, rs[i].at + WINDOW_MS);
  }

  // ----- the 119 is reached

  function Burst(team: TeamId, n: nat, at: int): (rs: seq<Request>)
    ensures |rs| == n && forall i :: 0 <= i < n ==> rs[i] == Request(team, at)
  {
    if n == 0 then [] else Burst(team, n - 1, at) + [Request(team, at)]
  }

  /** The team's bucket, and its count in [from, to). */
  ghost predicate Holds(rs: seq<Request>, team: TeamId, b: Bucket, from: int, to: int, n: nat) {
    team in Unpruned(rs) && Unpruned(rs)[team] == b && CountedIn(rs, team, from, to) == n
  }

  lemma OneFits(rs: seq<Request>, r: Request, b: Bucket, from: int, to: int, n: nat)
    requires Holds(rs, r.team, b, from, to, n) && b.count < MAX && r.at < b.resetAt && from <= r.at < to
    ensures Holds(rs + [r], r.team, b.(count := b.count + 1), from, to, n + 1)
  {
    MapStep(rs, r);
    CountStep(rs, r, r.team, from, to);
  }

  /** A burst that fits into the live window is admitted whole. */
  lemma {:induction false} BurstFits(rs: seq<Request>, team: TeamId, k: nat, at: int, b: Bucket, from: int, to: int, n: nat)
    requires Holds(rs, team, b, from, to, n) && b.count + k <= MAX && at < b.resetAt && from <= at < to
    ensures Holds(rs + Burst(team, k, at), team, b.(count := b.count + k), from, to, n + k)
    decreases k
  {
    if k == 0 {
      assert rs + Burst(team, k, at) == rs;
    } else {
      BurstFits(rs, team, k - 1, at, b, from, to, n);
      assert rs + Burst(team, k, at) == rs + Burst(team, k - 1, at) + [Request(team, at)];
      OneFits(rs + Burst(team, k - 1, at), Request(team, at), b.(count := b.count + k - 1), from, to, n + k - 1);
    }
  }

  /** One request, then the other 59 of its window at its end, then a whole window. */
  lemma AtMost119IsTight(team: TeamId) returns (rs: seq<Request>)
    ensures Timely(rs) && AdmittedIn(rs, team, 1, 1 + 60_000) == 119
  {
    var first, next := Request(team, 0), Request(team, WINDOW_MS);
    var to := 1 + WINDOW_MS;
    MapStep([], first);
    CountStep([], first, team, 1, to);
    assert [] + [first] == [first];
    BurstFits([first], team, MAX - 1, WINDOW_MS - 1, Bucket(1, WINDOW_MS), 1, to, 0);
    rs := [first] + Burst(team, MAX - 1, WINDOW_MS - 1);
    MapStep(rs, next);
    CountStep(rs, next, team, 1, to);
    rs := rs + [next];
    BurstFits(rs, team, MAX - 1, WINDOW_MS, Bucket(1, 2 * WINDOW_MS), 1, to, MAX);
    rs := rs + Burst(team, MAX - 1, WINDOW_MS);
    AdmittedIsCounted(rs, team, 1, to);
  }
}
