/** The status levels of src/lib/status.ts, worst last. */
module StatusLevels {

  datatype Level = Operational | Maintenance | Degraded | PartialOutage | MajorOutage

  function Rank(l: Level): nat {
    match l
    case Operational => 0
    case Maintenance => 1
    case Degraded => 2
    case PartialOutage => 3
    case MajorOutage => 4
  }

  function Worse(a: Level, b: Level): Level {
    if Rank(b) > Rank(a) then b else a
  }

  /** The reduction of `worst`, from 'operational'. */
  function Worst(levels: seq<Level>): Level {
    if levels == [] then Operational
    else Worse(Worst(levels[..|levels| - 1]), levels[|levels| - 1])
  }

  lemma {:induction false} WorstIsLeastBound(levels: seq<Level>)
    ensures forall i :: 0 <= i < |levels| ==> Rank(levels[i]) <= Rank(Worst(levels))
    ensures Worst(levels) == Operational || Worst(levels) in levels
    decreases |levels|
  {
    if levels != [] {
      WorstIsLeastBound(levels[..|levels| - 1]);
      assert forall l :: l in levels[..|levels| - 1] ==> l in levels;
      assert forall i :: 0 <= i < |levels| - 1 ==> levels[i] == levels[..|levels| - 1][i];
    }
  }

  /** The order of the levels, spelled out. */
  lemma WorstInOrder(levels: seq<Level>)
    ensures Worst(levels) == MajorOutage <==> MajorOutage in levels
    ensures Worst(levels) == PartialOutage <==> PartialOutage in levels && MajorOutage !in levels
    ensures Worst(levels) == Degraded <==> Degraded in levels && PartialOutage !in levels && MajorOutage !in levels
    ensures Worst(levels) == Maintenance <==>
            Maintenance in levels && Degraded !in levels && PartialOutage !in levels && MajorOutage !in levels
  {
    WorstIsLeastBound(levels);
    forall l | l in levels ensures Rank(l) <= Rank(Worst(levels)) {
      var i :| 0 <= i < |levels| && levels[i] == l;
    }
  }

  datatype PostType = Incident | MaintenancePost | Announcement
  datatype Impact = NoImpact | Minor | Major | Critical | MaintenanceImpact

  function PostLevel(t: PostType, impact: Impact): Level {
    if t == MaintenancePost then Maintenance
    else if t == Announcement then Operational
    else if impact == Critical then MajorOutage
    else if impact == Major then PartialOutage
    else if impact == Minor then Degraded
    else Operational
  }

  /** What counts against uptime. */
  predicate IsDown(l: Level) {
    l == PartialOutage || l == MajorOutage
  }
}
