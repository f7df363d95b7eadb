/** Host ranking, src/scheduler/placement.ts. */
module Placement {
  import opened Wrappers

  const USAGE_STALE_AFTER_MS: int := 120_000
  const LOAD_BUCKET: real := 5.0

  /** A number column: it may hold something that is not a finite number. */
  datatype Measure = Finite(value: real) | NotFinite

  /** A time column as the driver hands it over. */
  datatype Stamp = Never | Unreadable | At(ms: int)

  datatype Host = Host(
    name: string,
    cpuTotal: int,
    cpuUsed: int,
    ramTotalMb: int,
    ramUsedMb: int,
    cpuBusyPct: Option<Measure>,
    usageReportedAt: Stamp)

  function ReservedFreeCpu(h: Host): int {
    h.cpuTotal - h.cpuUsed
  }

  function ReservedFreeRamMb(h: Host): int {
    h.ramTotalMb - h.ramUsedMb
  }

  predicate Fits(h: Host, vcpu: int, ramMb: int) {
    ReservedFreeCpu(h) >= vcpu && ReservedFreeRamMb(h) >= ramMb
  }

  predicate MeasurementFresh(h: Host, now: int) {
    h.cpuBusyPct.Some? && h.usageReportedAt.At? && now - h.usageReportedAt.ms <= USAGE_STALE_AFTER_MS
  }

  function Clamp(n: Measure): (r: real)
    ensures 0.0 <= r <= 100.0
  {
    if n.NotFinite? then 100.0 else if n.value < 0.0 then 0.0 else if n.value > 100.0 then 100.0 else n.value
  }

  function LoadScore(h: Host, now: int): (r: real)
    ensures 0.0 <= r <= 100.0
  {
    if MeasurementFresh(h, now) then Clamp(h.cpuBusyPct.value)
    else if h.cpuTotal <= 0 then 100.0
    else Clamp(Finite(h.cpuUsed as real / h.cpuTotal as real * 100.0))
  }

  function Bucket(h: Host, now: int): (b: int)
    ensures 0 <= b <= 20
  {
    var b := (LoadScore(h, now) / LOAD_BUCKET).Floor;
    b
  }

  /** `localeCompare(a, b) <= 0`, for whatever locale the process runs in; it may tie different texts. */
  type Collation = (string, string) -> bool

  ghost predicate IsOrder(names: Collation) {
    && (forall a, b :: names(a, b) || names(b, a))
    && (forall a, b, c :: names(a, b) && names(b, c) ==> names(a, c))
  }

  /** The comparator's answer is zero or less. */
  predicate NotAfter(a: Host, b: Host, now: int, names: Collation) {
    if Bucket(a, now) != Bucket(b, now) then Bucket(a, now) < Bucket(b, now)
    else if ReservedFreeCpu(a) != ReservedFreeCpu(b) then ReservedFreeCpu(a) > ReservedFreeCpu(b)
    else names(a.name, b.name)
  }

  function Fitting(hosts: seq<Host>, vcpu: int, ramMb: int): seq<Host> {
    if hosts == [] then []
    else if Fits(hosts[0], vcpu, ramMb) then [hosts[0]] + Fitting(hosts[1..], vcpu, ramMb)
    else Fitting(hosts[1..], vcpu, ramMb)
  }

  type Comparator = (Host, Host) -> bool

  function ByLoad(now: int, names: Collation): Comparator {
    (a, b) => NotAfter(a, b, now, names)
  }

  /** Puts a host before the first one it is not after: equal hosts keep their order. */
  function Insert(h: Host, sorted: seq<Host>, le: Comparator): seq<Host> {
    if sorted == [] then [h]
    else if le(h, sorted[0]) then [h] + sorted
    else [sorted[0]] + Insert(h, sorted[1..], le)
  }

  /** Stands for Array.prototype.sort; AnySortGivesTheRanking says why its algorithm does not matter. */
  function Sort(hosts: seq<Host>, le: Comparator): seq<Host> {
    if hosts == [] then [] else Insert(hosts[0], Sort(hosts[1..], le), le)
  }

  function RankHosts(hosts: seq<Host>, vcpu: int, ramMb: int, now: int, names: Collation): seq<Host> {
    Sort(Fitting(hosts, vcpu, ramMb), ByLoad(now, names))
  }

  // ----- the order

  ghost predicate Sorted(s: seq<Host>, le: Comparator) {
    forall i, j :: 0 <= i < j < |s| ==> le(s[i], s[j])
  }

  /** No two hosts have names the collation ties. */
  ghost predicate UniqueNames(s: seq<Host>, names: Collation) {
    forall i, j :: 0 <= i < j < |s| ==> !(names(s[i].name, s[j].name) && names(s[j].name, s[i].name))
  }

  ghost predicate OrdersHosts(le: Comparator) {
    && (forall a, b :: le(a, b) || le(b, a))
    && (forall a, b, c :: le(a, b) && le(b, c) ==> le(a, c))
  }

  /** The comparator ties no two of the hosts. */
  ghost predicate NoTies(s: seq<Host>, le: Comparator) {
    forall i, j :: 0 <= i < j < |s| ==> !(le(s[i], s[j]) && le(s[j], s[i]))
  }

  /** Bucket, reserved CPU and name, in that order, are an order, strict on hosts with unique names. */
  lemma ByLoadOrders(now: int, names: Collation, s: seq<Host>)
    requires IsOrder(names)
    ensures OrdersHosts(ByLoad(now, names))
    ensures UniqueNames(s, names) ==> NoTies(s, ByLoad(now, names))
  {
  }

  lemma SortedCons(x: Host, s: seq<Host>, le: Comparator)
    requires Sorted(s, le) && forall y <- s :: le(x, y)
    ensures Sorted([x] + s, le)
  {
  }

  lemma {:induction false} InsertKeeps(h: Host, s: seq<Host>, le: Comparator)
    ensures multiset(Insert(h, s, le)) == multiset(s) + multiset{h}
    ensures forall x <- Insert(h, s, le) :: x in s || x == h
  {
    if s != [] {
      assert s == [s[0]] + s[1..];
      InsertKeeps(h, s[1..], le);
    }
  }

  lemma {:induction false} InsertSorts(h: Host, s: seq<Host>, le: Comparator)
    requires OrdersHosts(le) && Sorted(s, le)
    ensures Sorted(Insert(h, s, le), le)
  {
    if s != [] {
      if le(h, s[0]) {
        forall y <- s ensures le(h, y) {
          assert y == s[0] || le(s[0], y);
        }
        SortedCons(h, s, le);
      } else {
        InsertSorts(h, s[1..], le);
        InsertKeeps(h, s[1..], le);
        SortedCons(s[0], Insert(h, s[1..], le), le);
      }
    }
  }

  lemma {:induction false} SortSorts(s: seq<Host>, le: Comparator)
    requires OrdersHosts(le)
    ensures Sorted(Sort(s, le), le) && multiset(Sort(s, le)) == multiset(s)
  {
    if s != [] {
      SortSorts(s[1..], le);
      InsertSorts(s[0], Sort(s[1..], le), le);
      InsertKeeps(s[0], Sort(s[1..], le), le);
      assert s == [s[0]] + s[1..];
    }
  }

  lemma {:induction false} FittingIs(hosts: seq<Host>, vcpu: int, ramMb: int, h: Host)
    ensures multiset(Fitting(hosts, vcpu, ramMb))[h] == if Fits(h, vcpu, ramMb) then multiset(hosts)[h] else 0
  {
    if hosts != [] {
      FittingIs(hosts[1..], vcpu, ramMb, h);
      assert hosts == [hosts[0]] + hosts[1..];
      var rest := Fitting(hosts[1..], vcpu, ramMb);
      assert multiset([hosts[0]] + rest) == multiset{hosts[0]} + multiset(rest);
    }
  }

  /** rankHosts returns exactly the hosts that fit, each as often as given, emptiest first. */
  lemma RankedAreTheFitting(hosts: seq<Host>, vcpu: int, ramMb: int, now: int, names: Collation)
    requires IsOrder(names)
    ensures Sorted(RankHosts(hosts, vcpu, ramMb, now, names), ByLoad(now, names))
    ensures forall h :: multiset(RankHosts(hosts, vcpu, ramMb, now, names))[h] ==
                        if h.cpuTotal - h.cpuUsed >= vcpu && h.ramTotalMb - h.ramUsedMb >= ramMb
                        then multiset(hosts)[h] else 0
  {
    var f := Fitting(hosts, vcpu, ramMb);
    ByLoadOrders(now, names, f);
    SortSorts(f, ByLoad(now, names));
    forall h ensures multiset(RankHosts(hosts, vcpu, ramMb, now, names))[h] ==
                     if Fits(h, vcpu, ramMb) then multiset(hosts)[h] else 0 {
      FittingIs(hosts, vcpu, ramMb, h);
    }
  }

  /** A host's load in percent: its fresh measurement, else its reserved share; 100 when neither is a number; kept within 0 to 100. */
  predicate HasLoad(h: Host, now: int, load: real) {
    match h
    case Host(_, _, _, _, _, Some(Finite(busy)), At(ms)) =>
      if now - ms <= 120_000 then IsClamped(busy, load) else HasReserved(h, load)
    case Host(_, _, _, _, _, Some(NotFinite), At(ms)) =>
      if now - ms <= 120_000 then load == 100.0 else HasReserved(h, load)
    case _ => HasReserved(h, load)
  }

  predicate HasReserved(h: Host, load: real) {
    if h.cpuTotal <= 0 then load == 100.0 else IsClamped(h.cpuUsed as real / h.cpuTotal as real * 100.0, load)
  }

  predicate IsClamped(value: real, load: real) {
    && 0.0 <= load <= 100.0
    && (0.0 <= value <= 100.0 ==> load == value)
    && (value < 0.0 ==> load == 0.0) && (value > 100.0 ==> load == 100.0)
  }

  /** The five-point step a load falls into. */
  predicate InStep(load: real, step: int) {
    step as real * 5.0 <= load < (step + 1) as real * 5.0
  }

  lemma ScoreIsLoad(h: Host, now: int)
    ensures HasLoad(h, now, LoadScore(h, now)) && InStep(LoadScore(h, now), Bucket(h, now))
  {
    var q := LoadScore(h, now) / 5.0;
    assert q.Floor as real <= q < (q.Floor + 1) as real;
    assert q * 5.0 == LoadScore(h, now);
  }

  lemma StepIsOne(load: real, a: int, b: int)
    requires InStep(load, a) && InStep(load, b)
    ensures a == b
  {
  }

  /** One place is before another: a lower five-point step of load; in one step more free CPU; then the name. */
  ghost predicate Before(x: Host, y: Host, now: int, names: Collation) {
    forall lx, ly, sx, sy :: HasLoad(x, now, lx) && HasLoad(y, now, ly) && InStep(lx, sx) && InStep(ly, sy) ==>
      || sx < sy
      || (sx == sy && x.cpuTotal - x.cpuUsed > y.cpuTotal - y.cpuUsed)
      || (sx == sy && x.cpuTotal - x.cpuUsed == y.cpuTotal - y.cpuUsed && names(x.name, y.name))
  }

  lemma LoadIsOne(h: Host, now: int, a: real, b: real)
    requires HasLoad(h, now, a) && HasLoad(h, now, b)
    ensures a == b
  {
  }

  lemma NotAfterIsBefore(x: Host, y: Host, now: int, names: Collation)
    requires NotAfter(x, y, now, names)
    ensures Before(x, y, now, names)
  {
    forall lx, ly, sx, sy | HasLoad(x, now, lx) && HasLoad(y, now, ly) && InStep(lx, sx) && InStep(ly, sy)
      ensures sx == Bucket(x, now) && sy == Bucket(y, now)
    {
      ScoreIsLoad(x, now);
      ScoreIsLoad(y, now);
      LoadIsOne(x, now, lx, LoadScore(x, now));
      LoadIsOne(y, now, ly, LoadScore(y, now));
      StepIsOne(lx, sx, Bucket(x, now));
      StepIsOne(ly, sy, Bucket(y, now));
    }
  }

  /** The ranking is emptiest first, with the tie-breakers in their order. */
  lemma RankedEmptiestFirst(hosts: seq<Host>, vcpu: int, ramMb: int, now: int, names: Collation, i: nat, j: nat)
    requires IsOrder(names) && i < j < |RankHosts(hosts, vcpu, ramMb, now, names)|
    ensures var r := RankHosts(hosts, vcpu, ramMb, now, names); Before(r[i], r[j], now, names)
    ensures HasLoad(RankHosts(hosts, vcpu, ramMb, now, names)[i], now, LoadScore(RankHosts(hosts, vcpu, ramMb, now, names)[i], now))
  {
    var r := RankHosts(hosts, vcpu, ramMb, now, names);
    RankedAreTheFitting(hosts, vcpu, ramMb, now, names);
    assert ByLoad(now, names)(r[i], r[j]);
    NotAfterIsBefore(r[i], r[j], now, names);
    ScoreIsLoad(r[i], now);
  }

  // ----- one result for every input order

  lemma SameElement(a: seq<Host>, b: seq<Host>, x: Host)
    requires multiset(a) == multiset(b) && x in a
    ensures x in b
  {
    assert x in multiset(a);
  }

  lemma SameFirst(a: seq<Host>, b: seq<Host>, le: Comparator)
    requires OrdersHosts(le) && Sorted(a, le) && Sorted(b, le)
    requires multiset(a) == multiset(b) && NoTies(a, le) && a != [] && b != []
    ensures a[0] == b[0]
  {
    SameElement(a, b, a[0]);
    SameElement(b, a, b[0]);
    var i :| 0 <= i < |b| && b[i] == a[0];
    var j :| 0 <= j < |a| && a[j] == b[0];
    if i > 0 && j > 0 {
      assert false;
    }
  }

  /** A sorted list of hosts with different names is determined by its elements. */
  lemma {:induction false} SortedUnique(a: seq<Host>, b: seq<Host>, le: Comparator)
    requires OrdersHosts(le) && Sorted(a, le) && Sorted(b, le)
    requires multiset(a) == multiset(b) && NoTies(a, le)
    ensures a == b
  {
    assert |multiset(a)| == |a| && |multiset(b)| == |b|;
    if a != [] {
      SameFirst(a, b, le);
      Uncons(a);
      Uncons(b);
      SortedUnique(a[1..], b[1..], le);
    }
  }

  lemma Uncons(s: seq<Host>)
    requires s != []
    ensures s == [s[0]] + s[1..]
    ensures multiset(s[1..]) == multiset(s) - multiset{s[0]}
  {
    assert s == [s[0]] + s[1..];
    assert multiset([s[0]] + s[1..]) == multiset{s[0]} + multiset(s[1..]);
  }

  lemma {:induction false} FittingUnique(hosts: seq<Host>, vcpu: int, ramMb: int, names: Collation)
    requires UniqueNames(hosts, names)
    ensures UniqueNames(Fitting(hosts, vcpu, ramMb), names)
    ensures forall x <- Fitting(hosts, vcpu, ramMb) :: x in hosts
  {
    if hosts != [] {
      FittingUnique(hosts[1..], vcpu, ramMb, names);
      forall x <- hosts[1..] ensures !(names(hosts[0].name, x.name) && names(x.name, hosts[0].name)) {
      }
    }
  }

  lemma NamesStayUnique(a: seq<Host>, b: seq<Host>, names: Collation)
    requires IsOrder(names) && multiset(a) == multiset(b) && UniqueNames(a, names)
    ensures UniqueNames(b, names)
  {
    forall i, j | 0 <= i < j < |b| ensures !(names(b[i].name, b[j].name) && names(b[j].name, b[i].name)) {
      SameElement(b, a, b[i]);
      SameElement(b, a, b[j]);
      var k :| 0 <= k < |a| && a[k] == b[i];
      var l :| 0 <= l < |a| && a[l] == b[j];
      if k == l {
        TwiceInB(b, i, j);
        OnceInA(a, k, names);
        assert false;
      }
    }
  }

  lemma TwiceInB(b: seq<Host>, i: nat, j: nat)
    requires i < j < |b| && b[i] == b[j]
    ensures multiset(b)[b[i]] >= 2
  {
    assert b == b[..j] + [b[j]] + b[j + 1..];
    assert b[i] in b[..j];
    assert multiset(b) == multiset(b[..j]) + multiset{b[j]} + multiset(b[j + 1..]);
  }

  lemma OnceInA(a: seq<Host>, k: nat, names: Collation)
    requires IsOrder(names) && UniqueNames(a, names) && k < |a|
    ensures multiset(a)[a[k]] == 1
  {
    assert a == a[..k] + [a[k]] + a[k + 1..];
    assert a[k] !in a[..k] && a[k] !in a[k + 1..];
    assert multiset(a) == multiset(a[..k]) + multiset{a[k]} + multiset(a[k + 1..]);
  }

  /** The ranking of hosts with unique names does not depend on the order the database returns them in. */
  lemma RankingIgnoresInputOrder(hosts: seq<Host>, shuffled: seq<Host>, vcpu: int, ramMb: int, now: int, names: Collation)
    requires IsOrder(names) && UniqueNames(hosts, names) && multiset(hosts) == multiset(shuffled)
    ensures RankHosts(hosts, vcpu, ramMb, now, names) == RankHosts(shuffled, vcpu, ramMb, now, names)
  {
    var f, g := Fitting(hosts, vcpu, ramMb), Fitting(shuffled, vcpu, ramMb);
    forall h ensures multiset(f)[h] == multiset(g)[h] {
      FittingIs(hosts, vcpu, ramMb, h);
      FittingIs(shuffled, vcpu, ramMb, h);
    }
    assert multiset(f) == multiset(g);
    FittingUnique(hosts, vcpu, ramMb, names);
    SortIgnoresInputOrder(f, g, now, names);
  }

  lemma SortIgnoresInputOrder(f: seq<Host>, g: seq<Host>, now: int, names: Collation)
    requires IsOrder(names) && UniqueNames(f, names) && multiset(f) == multiset(g)
    ensures Sort(f, ByLoad(now, names)) == Sort(g, ByLoad(now, names))
  {
    var le := ByLoad(now, names);
    ByLoadOrders(now, names, Sort(f, le));
    SortSorts(f, le);
    SortSorts(g, le);
    NamesStayUnique(f, Sort(f, le), names);
    SortedUnique(Sort(f, le), Sort(g, le), le);
  }

  /** Whatever algorithm sorts the fitting hosts by the comparator, the result is the same. */
  lemma AnySortGivesTheRanking(hosts: seq<Host>, sorted: seq<Host>, vcpu: int, ramMb: int, now: int, names: Collation)
    requires IsOrder(names) && UniqueNames(hosts, names)
    requires multiset(sorted) == multiset(Fitting(hosts, vcpu, ramMb)) && Sorted(sorted, ByLoad(now, names))
    ensures sorted == RankHosts(hosts, vcpu, ramMb, now, names)
  {
    var f, le := Fitting(hosts, vcpu, ramMb), ByLoad(now, names);
    FittingUnique(hosts, vcpu, ramMb, names);
    ByLoadOrders(now, names, sorted);
    NamesStayUnique(f, sorted, names);
    SortSorts(f, le);
    SortedUnique(sorted, Sort(f, le), le);
  }

  // ----- measurements that are stale or missing

  /** The same host, up to a measurement that is not fresh. */
  predicate Alike(a: Host, b: Host, now: int) {
    && a == b.(cpuBusyPct := a.cpuBusyPct, usageReportedAt := a.usageReportedAt)
    && (a == b || (!MeasurementFresh(a, now) && !MeasurementFresh(b, now)))
  }

  ghost predicate AllAlike(a: seq<Host>, b: seq<Host>, now: int) {
    |a| == |b| && forall i :: 0 <= i < |a| ==> Alike(a[i], b[i], now)
  }

  lemma AlikeSameKey(a: Host, b: Host, now: int, vcpu: int, ramMb: int)
    requires Alike(a, b, now)
    ensures a.name == b.name && Bucket(a, now) == Bucket(b, now) && ReservedFreeCpu(a) == ReservedFreeCpu(b)
    ensures Fits(a, vcpu, ramMb) <==> Fits(b, vcpu, ramMb)
  {
  }

  lemma {:induction false} FittingAlike(a: seq<Host>, b: seq<Host>, now: int, vcpu: int, ramMb: int)
    requires AllAlike(a, b, now)
    ensures AllAlike(Fitting(a, vcpu, ramMb), Fitting(b, vcpu, ramMb), now)
  {
    if a != [] {
      AlikeSameKey(a[0], b[0], now, vcpu, ramMb);
      FittingAlike(a[1..], b[1..], now, vcpu, ramMb);
    }
  }

  lemma {:induction false} InsertAlike(h: Host, k: Host, a: seq<Host>, b: seq<Host>, now: int, names: Collation)
    requires Alike(h, k, now) && AllAlike(a, b, now)
    ensures AllAlike(Insert(h, a, ByLoad(now, names)), Insert(k, b, ByLoad(now, names)), now)
  {
    if a != [] {
      AlikeSameKey(h, k, now, 0, 0);
      AlikeSameKey(a[0], b[0], now, 0, 0);
      InsertAlike(h, k, a[1..], b[1..], now, names);
    }
  }

  lemma {:induction false} SortAlike(a: seq<Host>, b: seq<Host>, now: int, names: Collation)
    requires AllAlike(a, b, now)
    ensures AllAlike(Sort(a, ByLoad(now, names)), Sort(b, ByLoad(now, names)), now)
  {
    if a != [] {
      var le := ByLoad(now, names);
      SortAlike(a[1..], b[1..], now, names);
      InsertAlike(a[0], b[0], Sort(a[1..], le), Sort(b[1..], le), now, names);
    }
  }

  /** Whatever a stale or missing measurement says, the hosts come out in the same places. */
  lemma StaleMeasurementsNeverMatter(a: seq<Host>, b: seq<Host>, vcpu: int, ramMb: int, now: int, names: Collation)
    requires AllAlike(a, b, now)
    ensures AllAlike(RankHosts(a, vcpu, ramMb, now, names), RankHosts(b, vcpu, ramMb, now, names), now)
  {
    FittingAlike(a, b, now, vcpu, ramMb);
    SortAlike(Fitting(a, vcpu, ramMb), Fitting(b, vcpu, ramMb), now, names);
  }
}
