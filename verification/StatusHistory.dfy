/**
 * The uptime history of src/lib/status.ts: impairments from posts and from the transition
 * log, clamped to a window, folded into day bars and summed into an uptime.
 */
module StatusHistory {
  import opened Wrappers
  import opened StatusLevels
  import opened StatusLog
  import opened Intervals

  const DAY_MS: int := 86_400_000

  /** A span of impaired time, from an incident post or from the log. */
  datatype Impairment = Impairment(keys: set<Key>, span: Span, level: Level)

  datatype Post = Post(kind: PostType, impact: Impact, affected: set<Key>, created: int, resolved: Option<int>)

  /** Whole days [start, start + days) as seen at `now`. */
  datatype Window = Window(start: int, days: nat, now: int) {
    function End(): int {
      start + days * DAY_MS
    }
  }

  function Max(a: int, b: int): int { if a > b then a else b }
  function Min(a: int, b: int): int { if a < b then a else b }

  predicate Covers(im: Impairment, t: int) {
    im.span.start <= t < im.span.end
  }

  // ----- impairments from posts

  predicate Selected(p: Post, w: Window) {
    p.kind != Announcement && p.created < w.End() && (if p.resolved.Some? then p.resolved.value else w.now) > w.start
  }

  function PostSpan(p: Post, w: Window): Span {
    Span(Max(w.start, p.created), Min(w.End(), if p.resolved.Some? then p.resolved.value else w.now))
  }

  function FromPost(p: Post, w: Window): seq<Impairment> {
    var span := PostSpan(p, w);
    if !Selected(p, w) || PostLevel(p.kind, p.impact) == Operational || span.end <= span.start then []
    else [Impairment(p.affected, span, PostLevel(p.kind, p.impact))]
  }

  predicate PostActive(p: Post, t: int) {
    p.created <= t && (p.resolved.Some? ==> t < p.resolved.value)
  }

  lemma FromPostPointwise(p: Post, w: Window, t: int, level: Level)
    requires w.start <= t < w.End() && t < w.now
    ensures (exists im :: im in FromPost(p, w) && Covers(im, t) && im.level == level)
       <==> PostActive(p, t) && level == PostLevel(p.kind, p.impact) && level != Operational
  {
    if PostActive(p, t) && level == PostLevel(p.kind, p.impact) && level != Operational {
      assert FromPost(p, w) == [Impairment(p.affected, PostSpan(p, w), level)];
      assert Covers(FromPost(p, w)[0], t);
    }
  }

  // ----- impairments from the log

  function KeyEvents(log: seq<LogRow>, key: Key, before: int): seq<LogRow> {
    if log == [] then []
    else
      var n := |log| - 1;
      KeyEvents(log[..n], key, before) + if log[n].key == key && log[n].at < before then [log[n]] else []
  }

  /** The span of the event at `i`: until the next event of the component, or now. */
  function EventSpan(evs: seq<LogRow>, i: nat, w: Window): Span
    requires i < |evs|
  {
    Span(Max(w.start, evs[i].at), Min(w.End(), if i + 1 < |evs| then evs[i + 1].at else w.now))
  }

  function EventImpairments(evs: seq<LogRow>, key: Key, w: Window, n: nat): seq<Impairment>
    requires n <= |evs|
  {
    if n == 0 then []
    else
      var span := EventSpan(evs, n - 1, w);
      EventImpairments(evs, key, w, n - 1) +
      if evs[n - 1].status != Operational && span.end > span.start then [Impairment({key}, span, evs[n - 1].status)] else []
  }

  /** The inner loop over one component's events. */
  method SpansOfEvents(evs: seq<LogRow>, key: Key, w: Window) returns (impairments: seq<Impairment>)
    ensures impairments == EventImpairments(evs, key, w, |evs|)
  {
    impairments := [];
    for i := 0 to |evs|
      invariant impairments == EventImpairments(evs, key, w, i)
    {
      if evs[i].status != Operational {
        var spanStart := Max(w.start, evs[i].at);
        var spanEnd := Min(w.End(), if i + 1 < |evs| then evs[i + 1].at else w.now);
        if spanEnd > spanStart {
          impairments := impairments + [Impairment({key}, Span(spanStart, spanEnd), evs[i].status)];
        }
      }
    }
  }

  lemma {:induction false} EventImpairmentsAre(evs: seq<LogRow>, key: Key, w: Window, n: nat, im: Impairment)
    requires n <= |evs|
    ensures im in EventImpairments(evs, key, w, n)
       <==> exists i :: 0 <= i < n && evs[i].status != Operational && im == Impairment({key}, EventSpan(evs, i, w), evs[i].status)
                        && im.span.start < im.span.end
  {
    if n > 0 {
      EventImpairmentsAre(evs, key, w, n - 1, im);
    }
  }

  ghost predicate Increasing(evs: seq<LogRow>) {
    forall i, j :: 0 <= i < j < |evs| ==> evs[i].at < evs[j].at
  }

  predicate AllOf(evs: seq<LogRow>, key: Key) {
    forall i :: 0 <= i < |evs| ==> evs[i].key == key
  }

  /** `i` is the last event at or before `t`. */
  predicate InEffect(evs: seq<LogRow>, i: int, t: int) {
    0 <= i < |evs| && evs[i].at <= t && (i + 1 < |evs| ==> t < evs[i + 1].at)
  }

  lemma {:induction false} StatusIsInEffect(evs: seq<LogRow>, key: Key, t: int, level: Level)
    requires AllOf(evs, key) && Increasing(evs) && level != Operational
    ensures StatusAt(evs, key, t) == level <==> exists i :: InEffect(evs, i, t) && evs[i].status == level
    decreases |evs|
  {
    if evs != [] {
      var n := |evs| - 1;
      if evs[n].at <= t {
        assert InEffect(evs, n, t);
        assert forall j :: 0 <= j < n ==> evs[j].at < evs[n].at;
        assert forall i :: InEffect(evs, i, t) ==> i == n;
      } else {
        StatusIsInEffect(evs[..n], key, t, level);
        forall i ensures InEffect(evs, i, t) <==> InEffect(evs[..n], i, t) {
        }
        assert forall i :: 0 <= i < n ==> evs[i] == evs[..n][i];
      }
    }
  }

  /** Inside the window and before now, a component's spans carry a level exactly while it is its logged status. */
  lemma SpansPointwise(evs: seq<LogRow>, key: Key, w: Window, t: int, level: Level)
    requires AllOf(evs, key) && Increasing(evs)
    requires w.start <= t < w.End() && t < w.now
    ensures (exists im :: im in EventImpairments(evs, key, w, |evs|) && Covers(im, t) && im.level == level)
       <==> StatusAt(evs, key, t) == level && level != Operational
  {
    if level != Operational {
      StatusIsInEffect(evs, key, t, level);
      if i :| InEffect(evs, i, t) && evs[i].status == level {
        var im := Impairment({key}, EventSpan(evs, i, w), level);
        EventImpairmentsAre(evs, key, w, |evs|, im);
        assert Covers(im, t);
      }
    }
    if im :| im in EventImpairments(evs, key, w, |evs|) && Covers(im, t) && im.level == level {
      EventImpairmentsAre(evs, key, w, |evs|, im);
      var i :| 0 <= i < |evs| && evs[i].status != Operational && im == Impairment({key}, EventSpan(evs, i, w), evs[i].status);
      assert InEffect(evs, i, t);
    }
  }

  lemma {:induction false} KeyEventsFromLog(log: seq<LogRow>, key: Key, before: int)
    ensures forall e <- KeyEvents(log, key, before) :: e in log && e.at < before && e.key == key
    decreases |log|
  {
    if log != [] {
      KeyEventsFromLog(log[..|log| - 1], key, before);
    }
  }

  lemma {:induction false} KeyEventsShape(log: seq<LogRow>, key: Key, before: int)
    requires InOrder(log)
    ensures AllOf(KeyEvents(log, key, before), key) && Increasing(KeyEvents(log, key, before))
    ensures forall i :: 0 <= i < |KeyEvents(log, key, before)| ==>
              KeyEvents(log, key, before)[i].at < before && KeyEvents(log, key, before)[i] in log
    decreases |log|
  {
    KeyEventsFromLog(log, key, before);
    if log != [] {
      var n := |log| - 1;
      KeyEventsShape(log[..n], key, before);
      KeyEventsFromLog(log[..n], key, before);
      var evs := KeyEvents(log[..n], key, before);
      forall i | 0 <= i < |evs| && log[n].key == key ensures evs[i].at < log[n].at {
        var j :| 0 <= j < n && log[..n][j] == evs[i];
        assert log[j] == evs[i];
      }
    }
  }

  lemma {:induction false} KeyEventsKeepStatus(log: seq<LogRow>, key: Key, before: int, t: int)
    requires t < before
    ensures StatusAt(KeyEvents(log, key, before), key, t) == StatusAt(log, key, t)
    decreases |log|
  {
    if log != [] {
      var n := |log| - 1;
      KeyEventsKeepStatus(log[..n], key, before, t);
      var evs := KeyEvents(log[..n], key, before);
      assert (evs + [log[n]])[..|evs|] == evs;
      assert evs + [] == evs;
    }
  }

  // ----- all impairments of a window

  function FromPosts(posts: seq<Post>, w: Window): seq<Impairment> {
    if posts == [] then [] else FromPosts(posts[..|posts| - 1], w) + FromPost(posts[|posts| - 1], w)
  }

  function FromLog(log: seq<LogRow>, keys: seq<Key>, w: Window): seq<Impairment> {
    if keys == [] then []
    else
      var n := |keys| - 1;
      var evs := KeyEvents(log, keys[n], w.End());
      FromLog(log, keys[..n], w) + EventImpairments(evs, keys[n], w, |evs|)
  }

  /** One pass of the loop over the posts the query selects. */
  method SpanOfPost(p: Post, w: Window) returns (spans: seq<Impairment>)
    ensures spans == FromPost(p, w)
  {
    spans := [];
    if Selected(p, w) {
      var level := PostLevel(p.kind, p.impact);
      if level != Operational {
        var s := Max(w.start, p.created);
        var e := Min(w.End(), if p.resolved.Some? then p.resolved.value else w.now);
        if e > s {
          spans := [Impairment(p.affected, Span(s, e), level)];
        }
      }
    }
  }

  method ImpairmentsOfPosts(posts: seq<Post>, w: Window) returns (impairments: seq<Impairment>)
    ensures impairments == FromPosts(posts, w)
  {
    impairments := [];
    for i := 0 to |posts|
      invariant impairments == FromPosts(posts[..i], w)
    {
      assert posts[..i + 1][..i] == posts[..i];
      var spans := SpanOfPost(posts[i], w);
      impairments := impairments + spans;
    }
    assert posts[..|posts|] == posts;
  }

  method ImpairmentsOfLog(log: seq<LogRow>, keys: seq<Key>, w: Window) returns (impairments: seq<Impairment>)
    ensures impairments == FromLog(log, keys, w)
  {
    impairments := [];
    for k := 0 to |keys|
      invariant impairments == FromLog(log, keys[..k], w)
    {
      assert keys[..k + 1][..k] == keys[..k];
      var spans := SpansOfEvents(KeyEvents(log, keys[k], w.End()), keys[k], w);
      impairments := impairments + spans;
    }
    assert keys[..|keys|] == keys;
  }

  /** Both sources, flattened; `keys` are the components that have events. */
  method BuildImpairments(posts: seq<Post>, log: seq<LogRow>, keys: seq<Key>, w: Window) returns (impairments: seq<Impairment>)
    ensures impairments == FromPosts(posts, w) + FromLog(log, keys, w)
  {
    impairments := ImpairmentsOfPosts(posts, w);
    var logged := ImpairmentsOfLog(log, keys, w);
    impairments := impairments + logged;
  }

  lemma {:induction false} FromPostsAre(posts: seq<Post>, w: Window, im: Impairment)
    ensures im in FromPosts(posts, w) <==> exists p :: p in posts && im in FromPost(p, w)
    decreases |posts|
  {
    if posts != [] {
      var n := |posts| - 1;
      FromPostsAre(posts[..n], w, im);
      assert posts == posts[..n] + [posts[n]];
    }
  }

  ghost predicate LogGives(log: seq<LogRow>, k: Key, w: Window, im: Impairment) {
    var evs := KeyEvents(log, k, w.End());
    im in EventImpairments(evs, k, w, |evs|)
  }

  lemma {:induction false} FromLogAre(log: seq<LogRow>, keys: seq<Key>, w: Window, im: Impairment)
    ensures im in FromLog(log, keys, w)
       <==> exists k :: k in keys && LogGives(log, k, w, im)
    decreases |keys|
  {
    if keys != [] {
      var n := |keys| - 1;
      FromLogAre(log, keys[..n], w, im);
      assert keys == keys[..n] + [keys[n]];
      assert im in FromLog(log, keys, w) <==> im in FromLog(log, keys[..n], w) || LogGives(log, keys[n], w, im);
      if k :| k in keys[..n] && LogGives(log, k, w, im) {
        assert k in keys;
      }
    }
  }

  /** What is true of a component at an instant: an active post says so, or the log does. */
  ghost predicate Impaired(posts: seq<Post>, log: seq<LogRow>, key: Key, t: int, level: Level) {
    level != Operational &&
    (|| StatusAt(log, key, t) == level
     || exists p :: p in posts && key in p.affected && PostActive(p, t) && PostLevel(p.kind, p.impact) == level)
  }

  /** The components with events the query returned. */
  ghost predicate KeysComplete(log: seq<LogRow>, keys: seq<Key>, w: Window) {
    forall i :: 0 <= i < |log| && log[i].at < w.End() ==> log[i].key in keys
  }

  lemma {:induction false} UnloggedIsOperational(log: seq<LogRow>, key: Key, t: int)
    requires forall i :: 0 <= i < |log| && log[i].at <= t ==> log[i].key != key
    ensures StatusAt(log, key, t) == Operational
    decreases |log|
  {
    if log != [] {
      UnloggedIsOperational(log[..|log| - 1], key, t);
    }
  }

  ghost predicate Shown(impairments: seq<Impairment>, key: Key, t: int, level: Level) {
    exists im :: im in impairments && key in im.keys && Covers(im, t) && im.level == level
  }

  lemma ShownIsImpaired(posts: seq<Post>, log: seq<LogRow>, keys: seq<Key>, w: Window, key: Key, t: int, im: Impairment)
    requires InOrder(log) && w.start <= t < w.End() && t < w.now
    requires im in FromPosts(posts, w) + FromLog(log, keys, w) && key in im.keys && Covers(im, t)
    ensures Impaired(posts, log, key, t, im.level)
  {
    FromPostsAre(posts, w, im);
    FromLogAre(log, keys, w, im);
    if p :| p in posts && im in FromPost(p, w) {
      FromPostPointwise(p, w, t, im.level);
    } else {
      var k :| k in keys && LogGives(log, k, w, im);
      var evs := KeyEvents(log, k, w.End());
      EventImpairmentsAre(evs, k, w, |evs|, im);
      KeyEventsShape(log, key, w.End());
      KeyEventsKeepStatus(log, key, w.End(), t);
      SpansPointwise(evs, key, w, t, im.level);
    }
  }

  lemma LoggedIsShown(posts: seq<Post>, log: seq<LogRow>, keys: seq<Key>, w: Window, key: Key, t: int, level: Level)
    requires InOrder(log) && KeysComplete(log, keys, w) && w.start <= t < w.End() && t < w.now
    requires level != Operational && StatusAt(log, key, t) == level
    ensures Shown(FromPosts(posts, w) + FromLog(log, keys, w), key, t, level)
  {
    if key !in keys {
      UnloggedIsOperational(log, key, t);
    }
    var evs := KeyEvents(log, key, w.End());
    KeyEventsShape(log, key, w.End());
    KeyEventsKeepStatus(log, key, w.End(), t);
    SpansPointwise(evs, key, w, t, level);
    var im :| im in EventImpairments(evs, key, w, |evs|) && Covers(im, t) && im.level == level;
    EventImpairmentsAre(evs, key, w, |evs|, im);
    assert LogGives(log, key, w, im);
    FromLogAre(log, keys, w, im);
    assert im in FromPosts(posts, w) + FromLog(log, keys, w);
  }

  lemma PostedIsShown(posts: seq<Post>, log: seq<LogRow>, keys: seq<Key>, w: Window, key: Key, t: int, p: Post)
    requires w.start <= t < w.End() && t < w.now && p in posts && key in p.affected
    requires PostActive(p, t) && PostLevel(p.kind, p.impact) != Operational
    ensures Shown(FromPosts(posts, w) + FromLog(log, keys, w), key, t, PostLevel(p.kind, p.impact))
  {
    var level := PostLevel(p.kind, p.impact);
    FromPostPointwise(p, w, t, level);
    var im :| im in FromPost(p, w) && Covers(im, t) && im.level == level;
    FromPostsAre(posts, w, im);
    assert im in FromPosts(posts, w) + FromLog(log, keys, w);
  }

  /** The flat list is exact at every instant of the window before now, for every component and level. */
  lemma ImpairmentsAreExact(posts: seq<Post>, log: seq<LogRow>, keys: seq<Key>, w: Window, key: Key, t: int, level: Level)
    requires InOrder(log) && KeysComplete(log, keys, w)
    requires w.start <= t < w.End() && t < w.now
    ensures Shown(FromPosts(posts, w) + FromLog(log, keys, w), key, t, level) <==> Impaired(posts, log, key, t, level)
  {
    var all := FromPosts(posts, w) + FromLog(log, keys, w);
    if im :| im in all && key in im.keys && Covers(im, t) && im.level == level {
      ShownIsImpaired(posts, log, keys, w, key, t, im);
    }
    if Impaired(posts, log, key, t, level) {
      if StatusAt(log, key, t) == level {
        LoggedIsShown(posts, log, keys, w, key, t, level);
      } else {
        var p :| p in posts && key in p.affected && PostActive(p, t) && PostLevel(p.kind, p.impact) == level;
        PostedIsShown(posts, log, keys, w, key, t, p);
      }
    }
  }
}
