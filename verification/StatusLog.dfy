/**
 * The status transition log: recordComponentStatuses writes a row only on a change, and the
 * status observed at every poll can be read back from it.
 */
module StatusLog {
  import opened Wrappers
  import opened StatusLevels

  type Key = string

  /** A row of status_component_events. */
  datatype LogRow = LogRow(key: Key, status: Level, at: int)

  datatype Source = Api | Compute | Manual

  datatype Component = Component(key: Key, source: Source, manual: Option<Level>)

  /** A component in the loop of one poll, with the time at which its INSERT would be stamped. */
  datatype Turn = Turn(component: Component, at: int)

  function Effective(c: Component, compute: Level): Level {
    if c.manual.Some? then c.manual.value
    else if c.source == Compute then compute
    else Operational
  }

  /** The newest row of a component, by position: rows are appended in time order. */
  function LastStatus(log: seq<LogRow>, key: Key): Option<Level> {
    if log == [] then None
    else if log[|log| - 1].key == key then Some(log[|log| - 1].status)
    else LastStatus(log[..|log| - 1], key)
  }

  /** A component's status at an instant: its most recent event at or before it. */
  function StatusAt(log: seq<LogRow>, key: Key, t: int): Level {
    if log == [] then Operational
    else if log[|log| - 1].key == key && log[|log| - 1].at <= t then log[|log| - 1].status
    else StatusAt(log[..|log| - 1], key, t)
  }

  function Current(log: seq<LogRow>, key: Key): Level {
    if LastStatus(log, key).Some? then LastStatus(log, key).value else Operational
  }

  /** One component's turn: append on a change, and start the log only on an impairment. */
  function Observe(log: seq<LogRow>, key: Key, status: Level, now: int): seq<LogRow> {
    match LastStatus(log, key)
    case None => if status != Operational then log + [LogRow(key, status, now)] else log
    case Some(prev) => if prev != status then log + [LogRow(key, status, now)] else log
  }

  function ObserveAll(log: seq<LogRow>, turns: seq<Turn>, compute: Level): seq<LogRow> {
    if turns == [] then log
    else
      var n := |turns| - 1;
      var Turn(c, at) := turns[n];
      Observe(ObserveAll(log, turns[..n], compute), c.key, Effective(c, compute), at)
  }

  class Recorder {
    var log: seq<LogRow>

    constructor ()
      ensures log == []
    {
      log := [];
    }

    method RecordComponentStatuses(turns: seq<Turn>, compute: Level)
      modifies this
      ensures log == ObserveAll(old(log), turns, compute)
    {
      for i := 0 to |turns|
        invariant log == ObserveAll(old(log), turns[..i], compute)
      {
        assert turns[..i + 1][..i] == turns[..i];
        var Turn(c, at) := turns[i];
        var status := Effective(c, compute);
        var prev := LastStatus(log, c.key);
        if prev == None {
          if status != Operational {
            log := log + [LogRow(c.key, status, at)];
          }
        } else if prev.value != status {
          log := log + [LogRow(c.key, status, at)];
        }
      }
      assert turns[..|turns|] == turns;
    }
  }

  // ----- what one observation does

  /** For every component: adjacent events differ, and the first is not 'operational'. */
  ghost predicate OnlyChanges(log: seq<LogRow>) {
    forall n :: 0 <= n < |log| ==> log[n].status != Current(log[..n], log[n].key)
  }

  lemma ObserveAppends(log: seq<LogRow>, key: Key, status: Level, now: int)
    requires OnlyChanges(log)
    ensures var r := Observe(log, key, status, now);
            && (r == log || r == log + [LogRow(key, status, now)])
            && OnlyChanges(r)
            && (forall k :: Current(r, k) == if k == key then status else Current(log, k))
  {
    var r := Observe(log, key, status, now);
    if r != log {
      assert r[..|log|] == log;
      forall n | 0 <= n < |r| ensures r[n].status != Current(r[..n], r[n].key) {
        assert n < |log| ==> r[..n] == log[..n] && r[n] == log[n];
      }
    }
  }

  /** The last event of a component decides every later instant, and rows in the future none. */
  lemma {:induction false} StatusNow(log: seq<LogRow>, key: Key, t: int)
    requires forall i :: 0 <= i < |log| && log[i].key == key ==> log[i].at <= t
    ensures StatusAt(log, key, t) == Current(log, key)
    decreases |log|
  {
    if log != [] {
      StatusNow(log[..|log| - 1], key, t);
    }
  }

  lemma {:induction false} LaterRowsDoNotCount(log: seq<LogRow>, more: seq<LogRow>, key: Key, t: int)
    requires forall i :: 0 <= i < |more| ==> more[i].at > t || more[i].key != key
    ensures StatusAt(log + more, key, t) == StatusAt(log, key, t)
    decreases |more|
  {
    if more == [] {
      assert log + more == log;
    } else {
      var n := |more| - 1;
      assert (log + more)[..|log + more| - 1] == log + more[..n];
      LaterRowsDoNotCount(log, more[..n], key, t);
    }
  }

  // ----- a whole poll

  /** The query answers each component once, and statements are stamped in the order they run. */
  predicate InSequence(turns: seq<Turn>) {
    forall i, j :: 0 <= i < j < |turns| ==> turns[i].component.key != turns[j].component.key && turns[i].at <= turns[j].at
  }

  predicate OfTurn(row: LogRow, turns: seq<Turn>) {
    exists c :: 0 <= c < |turns| && turns[c].component.key == row.key && turns[c].at == row.at
  }

  /** The rows one poll adds: for distinct components of the poll, stamped in order. */
  ghost predicate Adds(log: seq<LogRow>, r: seq<LogRow>, turns: seq<Turn>) {
    && |log| <= |r| && r[..|log|] == log
    && (forall i :: |log| <= i < |r| ==> OfTurn(r[i], turns))
    && (forall i, j :: |log| <= i < j < |r| ==> r[i].key != r[j].key && r[i].at <= r[j].at)
  }

  lemma {:induction false} PollAdds(log: seq<LogRow>, turns: seq<Turn>, compute: Level)
    requires InSequence(turns)
    ensures Adds(log, ObserveAll(log, turns, compute), turns)
    decreases |turns|
  {
    if turns != [] {
      var n := |turns| - 1;
      PollAdds(log, turns[..n], compute);
      var mid, r := ObserveAll(log, turns[..n], compute), ObserveAll(log, turns, compute);
      forall i | |log| <= i < |r|
        ensures OfTurn(r[i], turns)
        ensures i < |mid| ==> r[i].key != turns[n].component.key && r[i].at <= turns[n].at
      {
        if i < |mid| {
          var c :| 0 <= c < n && turns[..n][c].component.key == mid[i].key && turns[..n][c].at == mid[i].at;
          assert turns[c].component.key == r[i].key;
        } else {
          assert turns[n].component.key == r[i].key;
        }
      }
    }
  }

  /** The newest row of every component of the poll says what the poll observed. */
  ghost predicate Shows(r: seq<LogRow>, turns: seq<Turn>, compute: Level) {
    forall i :: 0 <= i < |turns| ==> Current(r, turns[i].component.key) == Effective(turns[i].component, compute)
  }

  lemma ShowsStep(mid: seq<LogRow>, turns: seq<Turn>, compute: Level)
    requires turns != [] && OnlyChanges(mid) && InSequence(turns)
    requires Shows(mid, turns[..|turns| - 1], compute)
    ensures var Turn(c, at) := turns[|turns| - 1];
            Shows(Observe(mid, c.key, Effective(c, compute), at), turns, compute)
  {
    var n := |turns| - 1;
    var Turn(last, at) := turns[n];
    ObserveAppends(mid, last.key, Effective(last, compute), at);
    var r := Observe(mid, last.key, Effective(last, compute), at);
    forall i | 0 <= i < |turns| ensures Current(r, turns[i].component.key) == Effective(turns[i].component, compute) {
      if i < n {
        assert turns[..n][i] == turns[i];
      }
    }
  }

  lemma {:induction false} PollRecords(log: seq<LogRow>, turns: seq<Turn>, compute: Level)
    requires OnlyChanges(log) && InSequence(turns)
    ensures OnlyChanges(ObserveAll(log, turns, compute))
    ensures Shows(ObserveAll(log, turns, compute), turns, compute)
    decreases |turns|
  {
    if turns != [] {
      var n := |turns| - 1;
      var mid := ObserveAll(log, turns[..n], compute);
      PollRecords(log, turns[..n], compute);
      ObserveAppends(mid, turns[n].component.key, Effective(turns[n].component, compute), turns[n].at);
      ShowsStep(mid, turns, compute);
    }
  }

  // ----- a run of polls

  datatype Poll = Poll(turns: seq<Turn>, compute: Level)

  function LogAfter(polls: seq<Poll>): seq<LogRow> {
    if polls == [] then []
    else
      var n := |polls| - 1;
      ObserveAll(LogAfter(polls[..n]), polls[n].turns, polls[n].compute)
  }

  predicate Before(p: Poll, q: Poll) {
    forall a, b :: 0 <= a < |p.turns| && 0 <= b < |q.turns| ==> p.turns[a].at < q.turns[b].at
  }

  /** Polls never overlap. */
  predicate WellTimed(polls: seq<Poll>) {
    && (forall i, j :: 0 <= i < j < |polls| ==> Before(polls[i], polls[j]))
    && (forall i :: 0 <= i < |polls| ==> InSequence(polls[i].turns))
  }

  /** Rows are in time order, and those of one component at strictly increasing times. */
  ghost predicate InOrder(log: seq<LogRow>) {
    forall i, j :: 0 <= i < j < |log| ==>
      log[i].at <= log[j].at && (log[i].key == log[j].key ==> log[i].at < log[j].at)
  }

  /** Every row was written by a turn of some poll. */
  ghost predicate FromPolls(log: seq<LogRow>, polls: seq<Poll>) {
    forall i :: 0 <= i < |log| ==> exists p :: 0 <= p < |polls| && OfTurn(log[i], polls[p].turns)
  }

  lemma EarlierRows(log: seq<LogRow>, polls: seq<Poll>, i: nat, b: nat)
    requires polls != [] && WellTimed(polls) && FromPolls(log, polls[..|polls| - 1])
    requires i < |log| && b < |polls[|polls| - 1].turns|
    ensures log[i].at < polls[|polls| - 1].turns[b].at
  {
    var n := |polls| - 1;
    var p :| 0 <= p < n && OfTurn(log[i], polls[..n][p].turns);
    assert Before(polls[p], polls[n]);
  }

  lemma PollKeepsOrder(log: seq<LogRow>, r: seq<LogRow>, polls: seq<Poll>)
    requires polls != [] && WellTimed(polls) && FromPolls(log, polls[..|polls| - 1]) && InOrder(log)
    requires Adds(log, r, polls[|polls| - 1].turns)
    ensures InOrder(r)
  {
    var turns := polls[|polls| - 1].turns;
    forall i | 0 <= i < |log| ensures r[i] == log[i] {
      assert r[i] == r[..|log|][i];
    }
    forall i, j | 0 <= i < |log| <= j < |r| ensures r[i].at < r[j].at {
      assert OfTurn(r[j], turns);
      var b :| 0 <= b < |turns| && turns[b].component.key == r[j].key && turns[b].at == r[j].at;
      EarlierRows(log, polls, i, b);
    }
  }

  lemma PollKeepsSource(log: seq<LogRow>, r: seq<LogRow>, polls: seq<Poll>)
    requires polls != [] && FromPolls(log, polls[..|polls| - 1]) && Adds(log, r, polls[|polls| - 1].turns)
    ensures FromPolls(r, polls)
  {
    var n := |polls| - 1;
    forall i | 0 <= i < |r| ensures exists p :: 0 <= p < |polls| && OfTurn(r[i], polls[p].turns) {
      if i < |log| {
        assert r[i] == r[..|log|][i];
        var p :| 0 <= p < n && OfTurn(log[i], polls[..n][p].turns);
        assert OfTurn(r[i], polls[p].turns);
      } else {
        assert OfTurn(r[i], polls[n].turns);
      }
    }
  }

  /** For every component adjacent events differ and the first is an impairment; rows are in time order. */
  lemma {:induction false} LogIsChangesInOrder(polls: seq<Poll>)
    requires WellTimed(polls)
    ensures OnlyChanges(LogAfter(polls)) && InOrder(LogAfter(polls)) && FromPolls(LogAfter(polls), polls)
    decreases |polls|
  {
    if polls != [] {
      var n := |polls| - 1;
      LogIsChangesInOrder(polls[..n]);
      var log := LogAfter(polls[..n]);
      PollAdds(log, polls[n].turns, polls[n].compute);
      PollRecords(log, polls[n].turns, polls[n].compute);
      PollKeepsOrder(log, LogAfter(polls), polls);
      PollKeepsSource(log, LogAfter(polls), polls);
    }
  }

  /** The row found by position is the one the query finds by newest time. */
  lemma {:induction false} LastIsNewest(log: seq<LogRow>, key: Key, i: nat)
    requires InOrder(log) && i < |log| && log[i].key == key
    requires forall j :: 0 <= j < |log| && log[j].key == key ==> log[j].at <= log[i].at
    ensures LastStatus(log, key) == Some(log[i].status)
    decreases |log|
  {
    var n := |log| - 1;
    if i < n {
      assert log[n].key != key;
      assert forall j :: 0 <= j < n ==> log[..n][j] == log[j];
      LastIsNewest(log[..n], key, i);
    }
  }

  /** A poll has not looked at the component before `t` has passed. */
  predicate NotYet(p: Poll, key: Key, t: int) {
    forall c :: 0 <= c < |p.turns| && p.turns[c].component.key == key ==> t < p.turns[c].at
  }

  /** A poll changes nothing about the instants before its turn of the component. */
  lemma PollLeavesPast(log: seq<LogRow>, poll: Poll, key: Key, t: int)
    requires InSequence(poll.turns) && NotYet(poll, key, t)
    ensures StatusAt(ObserveAll(log, poll.turns, poll.compute), key, t) == StatusAt(log, key, t)
  {
    var r := ObserveAll(log, poll.turns, poll.compute);
    PollAdds(log, poll.turns, poll.compute);
    var more := r[|log|..];
    assert r == log + more;
    forall i | 0 <= i < |more| ensures more[i].at > t || more[i].key != key {
      assert OfTurn(r[|log| + i], poll.turns);
    }
    LaterRowsDoNotCount(log, more, key, t);
  }

  lemma LastPollDecides(polls: seq<Poll>, c: nat, t: int)
    requires polls != [] && WellTimed(polls)
    requires c < |polls[|polls| - 1].turns| && polls[|polls| - 1].turns[c].at <= t
    ensures var Poll(turns, compute) := polls[|polls| - 1];
            StatusAt(LogAfter(polls), turns[c].component.key, t) == Effective(turns[c].component, compute)
  {
    var n := |polls| - 1;
    var Poll(turns, compute) := polls[n];
    var log, r, key := LogAfter(polls[..n]), LogAfter(polls), turns[c].component.key;
    LogIsChangesInOrder(polls[..n]);
    PollAdds(log, turns, compute);
    PollRecords(log, turns, compute);
    forall i | 0 <= i < |r| && r[i].key == key ensures r[i].at <= t {
      if i < |log| {
        assert r[i] == r[..|log|][i];
        EarlierRows(log, polls, i, c);
      } else {
        assert OfTurn(r[i], turns);
      }
    }
    StatusNow(r, key, t);
  }

  /** What the polls up to `t` last observed of a component; unobserved is operational. */
  ghost function Observed(polls: seq<Poll>, key: Key, t: int): Level {
    if polls == [] then Operational
    else
      var Poll(turns, compute) := polls[|polls| - 1];
      if NotYet(polls[|polls| - 1], key, t) then Observed(polls[..|polls| - 1], key, t)
      else
        var c :| 0 <= c < |turns| && turns[c].component.key == key && turns[c].at <= t;
        match turns[c].component
        case Component(_, _, Some(pinned)) => pinned
        case Component(_, Compute, None) => compute
        case _ => Operational
  }

  /** Reading the log back gives, for every component at every instant, what was last observed. */
  lemma {:induction false} LogRoundTrip(polls: seq<Poll>, key: Key, t: int)
    requires WellTimed(polls)
    ensures StatusAt(LogAfter(polls), key, t) == Observed(polls, key, t)
    decreases |polls|
  {
    if polls != [] {
      var n := |polls| - 1;
      if NotYet(polls[n], key, t) {
        LogRoundTrip(polls[..n], key, t);
        PollLeavesPast(LogAfter(polls[..n]), polls[n], key, t);
      } else {
        forall c: nat | c < |polls[n].turns| && polls[n].turns[c].component.key == key && polls[n].turns[c].at <= t
          ensures StatusAt(LogAfter(polls), key, t) == Effective(polls[n].turns[c].component, polls[n].compute)
        {
          LastPollDecides(polls, c, t);
        }
      }
    }
  }
}
