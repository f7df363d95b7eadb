/** unionLength of src/lib/status.ts: the sort-and-sweep measure of a union of intervals. */
module Intervals {
  import opened Sets

  /** Half-open, in milliseconds since the epoch. */
  datatype Span = Span(start: int, end: int)

  /** The instants of one span, one per millisecond. */
  ghost function Between(a: int, b: int): (r: set<int>)
    ensures forall t :: t in r <==> a <= t < b
    decreases b - a
  {
    if a < b then Between(a, b - 1) + {b - 1} else {}
  }

  lemma {:induction false} BetweenSize(a: int, b: int)
    ensures |Between(a, b)| == if a < b then b - a else 0
    decreases b - a
  {
    if a < b {
      BetweenSize(a, b - 1);
    }
  }

  /** The instants at which at least one span holds. */
  ghost function Covered(spans: seq<Span>): set<int> {
    if spans == [] then {}
    else Covered(spans[..|spans| - 1]) + Between(spans[|spans| - 1].start, spans[|spans| - 1].end)
  }

  lemma {:induction false} CoveredPointwise(spans: seq<Span>, t: int)
    ensures t in Covered(spans) <==> exists i :: 0 <= i < |spans| && spans[i].start <= t < spans[i].end
  {
    if t in Covered(spans) {
      var i := CoveringSpan(spans, t);
    }
    if i :| 0 <= i < |spans| && spans[i].start <= t < spans[i].end {
      SpanCovers(spans, i, t);
    }
  }

  lemma {:induction false} CoveringSpan(spans: seq<Span>, t: int) returns (i: nat)
    requires t in Covered(spans)
    ensures i < |spans| && spans[i].start <= t < spans[i].end
    decreases |spans|
  {
    var n := |spans| - 1;
    i := n;
    if !(spans[n].start <= t < spans[n].end) {
      i := CoveringSpan(spans[..n], t);
    }
  }

  lemma {:induction false} SpanCovers(spans: seq<Span>, i: nat, t: int)
    requires i < |spans| && spans[i].start <= t < spans[i].end
    ensures t in Covered(spans)
    decreases |spans|
  {
    if i < |spans| - 1 {
      SpanCovers(spans[..|spans| - 1], i, t);
    }
  }

  lemma CoveredAppend(spans: seq<Span>, s: Span)
    ensures Covered(spans + [s]) == Covered(spans) + Between(s.start, s.end)
  {
    assert (spans + [s])[..|spans|] == spans;
  }

  // ----- sorting by start

  predicate Sorted(spans: seq<Span>) {
    forall i, j :: 0 <= i < j < |spans| ==> spans[i].start <= spans[j].start
  }

  function Insert(s: Span, spans: seq<Span>): seq<Span> {
    if spans == [] || s.start < spans[0].start then [s] + spans
    else [spans[0]] + Insert(s, spans[1..])
  }

  lemma {:induction false} InsertKeepsElements(s: Span, spans: seq<Span>)
    ensures multiset(Insert(s, spans)) == multiset(spans) + multiset{s}
  {
    if spans != [] && s.start >= spans[0].start {
      InsertKeepsElements(s, spans[1..]);
      assert spans == [spans[0]] + spans[1..];
    }
  }

  lemma {:induction false} InsertKeepsOrder(s: Span, spans: seq<Span>)
    requires Sorted(spans)
    ensures Sorted(Insert(s, spans))
  {
    if spans != [] && s.start >= spans[0].start {
      InsertKeepsOrder(s, spans[1..]);
      InsertKeepsElements(s, spans[1..]);
      var rest := Insert(s, spans[1..]);
      forall i | 0 <= i < |rest| ensures spans[0].start <= rest[i].start {
        assert rest[i] in multiset(rest);
        assert rest[i] == s || rest[i] in spans[1..];
      }
    }
  }

  /** The library sort with the comparator a.start - b.start. */
  function SortByStart(spans: seq<Span>): seq<Span> {
    if spans == [] then [] else Insert(spans[0], SortByStart(spans[1..]))
  }

  lemma {:induction false} SortSorts(spans: seq<Span>)
    ensures Sorted(SortByStart(spans)) && multiset(SortByStart(spans)) == multiset(spans)
  {
    if spans != [] {
      SortSorts(spans[1..]);
      InsertKeepsElements(spans[0], SortByStart(spans[1..]));
      InsertKeepsOrder(spans[0], SortByStart(spans[1..]));
      assert spans == [spans[0]] + spans[1..];
    }
  }

  function NonEmpty(spans: seq<Span>): (r: seq<Span>)
    ensures forall i :: 0 <= i < |r| ==> r[i].start < r[i].end
    ensures forall s :: s in r <==> s in spans && s.start < s.end
  {
    if spans == [] then []
    else if spans[0].end > spans[0].start then [spans[0]] + NonEmpty(spans[1..])
    else NonEmpty(spans[1..])
  }

  lemma SameElementsSameCover(a: seq<Span>, b: seq<Span>)
    requires forall s: Span :: s.start < s.end ==> (s in a <==> s in b)
    ensures Covered(a) == Covered(b)
  {
    forall t ensures t in Covered(a) <==> t in Covered(b) {
      CoveredPointwise(a, t);
      CoveredPointwise(b, t);
      if i :| 0 <= i < |a| && a[i].start <= t < a[i].end {
        assert a[i] in b;
      }
      if i :| 0 <= i < |b| && b[i].start <= t < b[i].end {
        assert b[i] in a;
      }
    }
  }

  lemma SweepOrderCover(spans: seq<Span>)
    ensures Covered(SortByStart(NonEmpty(spans))) == Covered(spans)
  {
    var sorted := SortByStart(NonEmpty(spans));
    SortSorts(NonEmpty(spans));
    forall s: Span | s.start < s.end ensures s in sorted <==> s in spans {
      assert s in sorted <==> s in multiset(sorted);
      assert s in multiset(NonEmpty(spans)) <==> s in NonEmpty(spans);
    }
    SameElementsSameCover(sorted, spans);
  }

  // ----- the sweep

  /** The sweep starts with its cursor at -1, so it sees no instant before that. */
  ghost function Seen(instants: set<int>): set<int> {
    set t | t in instants && t >= -1
  }

  /** What unionLength computes. */
  ghost function Measure(spans: seq<Span>): nat {
    |Seen(Covered(spans))|
  }

  /** `x` is what the spans swept so far cover, `last` the start of the latest of them. */
  ghost predicate SweepState(x: set<int>, last: int, done: set<int>, total: int, curStart: int, curEnd: int) {
    && |done| == total
    && -1 <= curStart <= curEnd
    && (forall t :: t in done ==> t < curStart)
    && Seen(x) == done + Between(curStart, curEnd)
    && (curStart == -1 || curStart <= last)
  }

  lemma ClosePiece(x: set<int>, last: int, done: set<int>, total: int, curStart: int, curEnd: int)
    requires SweepState(x, last, done, total, curStart, curEnd)
    ensures |done + Between(curStart, curEnd)| == total + curEnd - curStart == |Seen(x)|
    ensures forall t :: t in done + Between(curStart, curEnd) ==> t < curEnd
  {
    BetweenSize(curStart, curEnd);
    assert done !! Between(curStart, curEnd);
  }

  /** The next span starts after the current piece: the piece is closed and a new one begins. */
  lemma StartPiece(x: set<int>, last: int, s: Span, done: set<int>, total: int, curStart: int, curEnd: int)
    requires SweepState(x, last, done, total, curStart, curEnd) && curEnd < s.start <= s.end
    ensures SweepState(x + Between(s.start, s.end), s.start, done + Between(curStart, curEnd), total + curEnd - curStart,
                       s.start, s.end)
  {
    ClosePiece(x, last, done, total, curStart, curEnd);
    StartSeen(x, s.start, s.end);
  }

  lemma StartSeen(x: set<int>, start: int, end: int)
    requires start >= -1
    ensures Seen(x + Between(start, end)) == Seen(x) + Between(start, end)
  {
  }

  lemma GrowSeen(x: set<int>, done: set<int>, curStart: int, curEnd: int, start: int, end: int)
    requires -1 <= curStart <= curEnd && start <= curEnd && (curStart == -1 || curStart <= start)
    requires Seen(x) == done + Between(curStart, curEnd)
    ensures Seen(x + Between(start, end)) == done + Between(curStart, if end > curEnd then end else curEnd)
  {
    var top := if end > curEnd then end else curEnd;
    forall t ensures t in Seen(x + Between(start, end)) <==> t in done + Between(curStart, top) {
      assert t in Seen(x) <==> t in x && t >= -1;
    }
  }

  /** The next span starts within the current piece, which grows if the span ends later. */
  lemma GrowPiece(x: set<int>, last: int, s: Span, done: set<int>, total: int, curStart: int, curEnd: int)
    requires SweepState(x, last, done, total, curStart, curEnd) && (curStart == -1 || last <= s.start) && s.start <= curEnd
    ensures SweepState(x + Between(s.start, s.end), s.start, done, total, curStart, if s.end > curEnd then s.end else curEnd)
  {
    GrowSeen(x, done, curStart, curEnd, s.start, s.end);
  }

  lemma SweepInput(intervals: seq<Span>)
    ensures var spans := SortByStart(NonEmpty(intervals));
            Sorted(spans) && forall k :: 0 <= k < |spans| ==> spans[k].start < spans[k].end
  {
    var spans := SortByStart(NonEmpty(intervals));
    SortSorts(NonEmpty(intervals));
    forall k | 0 <= k < |spans| ensures spans[k].start < spans[k].end {
      assert spans[k] in multiset(spans);
      assert spans[k] in NonEmpty(intervals);
    }
  }

  lemma SweepBegins(last: int)
    ensures SweepState({}, last, {}, 0, -1, -1)
  {
  }

  /** What the first k spans cover. */
  ghost function CoveredTo(spans: seq<Span>, k: nat): set<int>
    requires k <= |spans|
  {
    if k == 0 then {} else CoveredTo(spans, k - 1) + Between(spans[k - 1].start, spans[k - 1].end)
  }

  lemma CoveredStep(spans: seq<Span>, k: nat)
    requires k < |spans|
    ensures CoveredTo(spans, k + 1) == CoveredTo(spans, k) + Between(spans[k].start, spans[k].end)
  {
  }

  lemma {:induction false} CoveredToIs(spans: seq<Span>, k: nat)
    requires k <= |spans|
    ensures CoveredTo(spans, k) == Covered(spans[..k])
  {
    if k > 0 {
      CoveredToIs(spans, k - 1);
      assert spans[..k] == spans[..k - 1] + [spans[k - 1]];
      CoveredAppend(spans[..k - 1], spans[k - 1]);
    }
  }

  lemma CoveredToAll(spans: seq<Span>)
    ensures CoveredTo(spans, |spans|) == Covered(spans)
  {
    CoveredToIs(spans, |spans|);
    assert spans[..|spans|] == spans;
  }

  method UnionLength(intervals: seq<Span>) returns (total: int)
    ensures total == Measure(intervals)
  {
    var spans := SortByStart(NonEmpty(intervals));
    SweepInput(intervals);
    total := Sweep(spans);
    SweepOrderCover(intervals);
  }

  /** One pass of the sweep. */
  method Advance(s: Span, total: int, curStart: int, curEnd: int, ghost x: set<int>, ghost last: int, ghost done: set<int>)
    returns (total': int, curStart': int, curEnd': int, ghost done': set<int>)
    requires SweepState(x, last, done, total, curStart, curEnd) && (curStart == -1 || last <= s.start) && s.start < s.end
    ensures SweepState(x + Between(s.start, s.end), s.start, done', total', curStart', curEnd')
  {
    total', curStart', curEnd', done' := total, curStart, curEnd, done;
    if s.start > curEnd {
      StartPiece(x, last, s, done, total, curStart, curEnd);
      if curEnd > curStart {
        total' := total + (curEnd - curStart);
      }
      curStart', curEnd', done' := s.start, s.end, done + Between(curStart, curEnd);
    } else {
      GrowPiece(x, last, s, done, total, curStart, curEnd);
      if s.end > curEnd {
        curEnd' := s.end;
      }
    }
  }

  /** The state of the sweep before the k-th span. */
  ghost predicate SweptTo(spans: seq<Span>, k: nat, done: set<int>, total: int, curStart: int, curEnd: int)
    requires k <= |spans|
  {
    SweepState(CoveredTo(spans, k), if k == 0 then -1 else spans[k - 1].start, done, total, curStart, curEnd)
  }

  /** One pass of the loop over the sorted spans. */
  method Pass(spans: seq<Span>, k: nat, total: int, curStart: int, curEnd: int, ghost done: set<int>)
    returns (total': int, curStart': int, curEnd': int, ghost done': set<int>)
    requires Sorted(spans) && k < |spans| && spans[k].start < spans[k].end
    requires SweptTo(spans, k, done, total, curStart, curEnd)
    ensures SweptTo(spans, k + 1, done', total', curStart', curEnd')
  {
    var s := spans[k];
    total', curStart', curEnd', done' :=
      Advance(s, total, curStart, curEnd, CoveredTo(spans, k), if k == 0 then -1 else spans[k - 1].start, done);
    CoveredStep(spans, k);
  }

  method Sweep(spans: seq<Span>) returns (total: int)
    requires Sorted(spans) && forall k :: 0 <= k < |spans| ==> spans[k].start < spans[k].end
    ensures total == Measure(spans)
  {
    total := 0;
    var curStart, curEnd := -1, -1;
    ghost var done: set<int> := {};
    SweepBegins(-1);
    for k := 0 to |spans|
      invariant SweptTo(spans, k, done, total, curStart, curEnd)
    {
      total, curStart, curEnd, done := Pass(spans, k, total, curStart, curEnd, done);
    }
    CoveredToAll(spans);
    ClosePiece(Covered(spans), if spans == [] then -1 else spans[|spans| - 1].start, done, total, curStart, curEnd);
    if curEnd > curStart {
      total := total + (curEnd - curStart);
    }
  }

  // ----- what follows for every caller

  /** The result is the number of covered instants exactly when no non-empty interval starts before -1. */
  lemma MeasureIsExact(spans: seq<Span>)
    ensures Measure(spans) == |Covered(spans)| <==> forall s :: s in spans && s.start < s.end ==> s.start >= -1
  {
    var all, seen := Covered(spans), Seen(Covered(spans));
    assert seen <= all;
    if s :| s in spans && s.start < s.end && s.start < -1 {
      CoveredPointwise(spans, s.start);
      assert s.start in all - seen;
      assert |all| == |seen| + |all - seen| by {
        assert all == seen + (all - seen);
      }
    } else {
      forall t | t in all ensures t in seen {
        CoveredPointwise(spans, t);
        var i :| 0 <= i < |spans| && spans[i].start <= t < spans[i].end;
        assert spans[i] in spans;
      }
      assert seen == all;
    }
  }

  lemma MeasureIgnoresOrder(a: seq<Span>, b: seq<Span>)
    requires multiset(a) == multiset(b)
    ensures Measure(a) == Measure(b)
  {
    forall s: Span ensures s in a <==> s in b {
      assert s in a <==> s in multiset(a);
      assert s in b <==> s in multiset(b);
    }
    SameElementsSameCover(a, b);
  }

  lemma CoveredConcat(a: seq<Span>, b: seq<Span>)
    ensures Covered(a + b) == Covered(a) + Covered(b)
    decreases |b|
  {
    if b == [] {
      assert a + b == a;
    } else {
      var n := |b| - 1;
      CoveredConcat(a, b[..n]);
      assert (a + b)[..|a + b| - 1] == a + b[..n];
    }
  }

  /** Adding intervals never lowers the measure, and adds at most their own. */
  lemma MeasureGrows(a: seq<Span>, b: seq<Span>)
    ensures Measure(a) <= Measure(a + b) <= Measure(a) + Measure(b)
  {
    CoveredConcat(a, b);
    var x, y := Seen(Covered(a)), Seen(Covered(b));
    assert Seen(Covered(a + b)) == x + y;
    SubsetSize(x, x + y);
    assert |x + y| + |x * y| == |x| + |y|;
  }

  function SumOfLengths(spans: seq<Span>): int {
    if spans == [] then 0
    else SumOfLengths(spans[..|spans| - 1]) +
         (if spans[|spans| - 1].end > spans[|spans| - 1].start then spans[|spans| - 1].end - spans[|spans| - 1].start else 0)
  }

  lemma {:induction false} MeasureAtMostSum(spans: seq<Span>)
    ensures Measure(spans) <= SumOfLengths(spans)
    decreases |spans|
  {
    if spans == [] {
      assert Seen(Covered(spans)) == {};
    } else {
      var n := |spans| - 1;
      var s := spans[n];
      MeasureAtMostSum(spans[..n]);
      var x, y := Seen(Covered(spans[..n])), Seen(Between(s.start, s.end));
      assert Seen(Covered(spans)) == x + y;
      assert |x + y| + |x * y| == |x| + |y|;
      BetweenSize(s.start, s.end);
      SubsetSize(y, Between(s.start, s.end));
    }
  }
}
