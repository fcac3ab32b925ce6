/**
 * Drill-hole data model: assay units, assay identity, depth intervals and the
 * per-hole interval container with its contiguity grouping (Hole.py).
 */
module Hole {
  import opened Wrappers
  import opened Sequences

  /** Measurement units. GPT (grams per tonne) is the member the conversion table uses. */
  datatype AssayUnit = PPM | PPB | PPT | Percent | GPT
  {
    /** The enumeration member's name, as used by the assay hash. */
    function Name(): string
    {
      match this
      case PPM => "PPM"
      case PPB => "PPB"
      case PPT => "PPT"
      case Percent => "Percent"
      case GPT => "GPT"
    }
  }

  /** The identity part of an assay type: the key of every assay dictionary. */
  datatype AssayId = AssayId(element: string, baseUnit: AssayUnit)

  /**
   * An element measured in a base unit, with a display-only reported unit that
   * takes no part in identity, equality or hashing.
   */
  datatype AssayType = AssayType(element: string, baseUnit: AssayUnit, reportedUnit: AssayUnit)
  {
    function Id(): AssayId
    {
      AssayId(element, baseUnit)
    }

    /** The string the source hashes: element followed by the base unit's name. */
    function HashKey(): string
    {
      element + baseUnit.Name()
    }

    /** The source's equality: element and base unit only. */
    predicate Equals(other: AssayType)
    {
      element == other.element && baseUnit == other.baseUnit
    }
  }

  /** Two assay types are equal exactly when they have the same identity key. */
  lemma EqualsIsIdentity(a: AssayType, b: AssayType)
    ensures a.Equals(b) <==> a.Id() == b.Id()
    ensures a.Equals(b) ==> a.HashKey() == b.HashKey()
  {
  }

  lemma NameSuffix(u: AssayUnit, v: AssayUnit, e1: string, e2: string)
    requires e1 + u.Name() == e2 + v.Name()
    ensures u == v
  {
    var s := e1 + u.Name();
    assert s[|s| - 3..] == u.Name()[|u.Name()| - 3..];
    assert s[|s| - 3..] == v.Name()[|v.Name()| - 3..];
  }

  /**
   * Hash keys agree exactly on equal assay types: no element/unit pair can
   * collide with another through the concatenation, because no unit name is
   * a suffix of another.
   */
  lemma {:induction false} HashAgreesWithEquality(a: AssayType, b: AssayType)
    ensures a.HashKey() == b.HashKey() <==> a.Equals(b)
  {
    if a.HashKey() == b.HashKey() {
      NameSuffix(a.baseUnit, b.baseUnit, a.element, b.element);
      var n := |a.baseUnit.Name()|;
      assert a.element == a.HashKey()[..|a.HashKey()| - n];
      assert b.element == b.HashKey()[..|b.HashKey()| - n];
    }
  }

  /** One depth interval [start, end) with the assay values recorded for it. */
  datatype IntervalData = IntervalData(span: (real, real), assayData: map<AssayId, real>)
  {
    function Start(): real
    {
      span.0
    }

    function End(): real
    {
      span.1
    }

    function Length(): (r: real)
      ensures Start() + r == End()
    {
      span.1 - span.0
    }

    /** The stored value for an assay identity, or None when it was not recorded. */
    function Lookup(id: AssayId): (r: Option<real>)
      ensures r.Some? <==> id in assayData
      ensures r.Some? ==> r.value == assayData[id]
    {
      if id in assayData then Some(assayData[id]) else None
    }

    /** The stored value for an assay type; the reported unit plays no part. */
    function GetAssay(a: AssayType): (r: Option<real>)
      ensures r.Some? <==> a.Id() in assayData
      ensures r.Some? ==> r.value == assayData[a.Id()]
      ensures forall b: AssayType :: b.Equals(a) ==> Lookup(b.Id()) == r
    {
      Lookup(a.Id())
    }

    /** value × length; None where the source's dictionary lookup raises. */
    function ConcentrationMetres(id: AssayId): (r: Option<real>)
      ensures r.Some? <==> id in assayData
      ensures r.Some? ==> r.value == assayData[id] * (End() - Start())
    {
      match Lookup(id)
      case Some(v) => Some(v * Length())
      case None => None
    }
  }

  /** start and end are the span's two ends: an interval is rebuilt from them and its assay data. */
  lemma SpanEnds(iv: IntervalData)
    ensures iv == IntervalData((iv.Start(), iv.End()), iv.assayData)
  {
  }

  // ---------------------------------------------------------------- ordering

  ghost predicate SortedByStart(s: seq<IntervalData>)
  {
    forall i, j :: 0 <= i < j < |s| ==> s[i].Start() <= s[j].Start()
  }

  /** The intervals of s whose start is k, in their order in s. */
  function WithStart(s: seq<IntervalData>, k: real): seq<IntervalData>
  {
    if s == [] then []
    else WithStart(s[..|s| - 1], k) + (if s[|s| - 1].Start() == k then [s[|s| - 1]] else [])
  }

  /** Inserts x after every element whose start is not greater than x's. */
  function InsertByStart(t: seq<IntervalData>, x: IntervalData): seq<IntervalData>
    decreases |t|
  {
    if t == [] || t[|t| - 1].Start() <= x.Start() then t + [x]
    else InsertByStart(t[..|t| - 1], x) + [t[|t| - 1]]
  }

  lemma {:induction false} InsertElements(t: seq<IntervalData>, x: IntervalData)
    ensures multiset(InsertByStart(t, x)) == multiset(t) + multiset{x}
    ensures forall y :: y in InsertByStart(t, x) <==> y in t || y == x
    decreases |t|
  {
    if !(t == [] || t[|t| - 1].Start() <= x.Start()) {
      var init, last := t[..|t| - 1], t[|t| - 1];
      assert t == init + [last];
      InsertElements(init, x);
    }
  }

  lemma {:induction false} InsertSorted(t: seq<IntervalData>, x: IntervalData)
    requires SortedByStart(t)
    ensures SortedByStart(InsertByStart(t, x))
    decreases |t|
  {
    if !(t == [] || t[|t| - 1].Start() <= x.Start()) {
      var init, last := t[..|t| - 1], t[|t| - 1];
      InsertSorted(init, x);
      InsertElements(init, x);
      var r' := InsertByStart(init, x);
      forall i | 0 <= i < |r'| ensures r'[i].Start() <= last.Start() {
        assert r'[i] in r';
      }
    }
  }

  lemma WithStartSnoc(s: seq<IntervalData>, y: IntervalData, k: real)
    ensures WithStart(s + [y], k) == WithStart(s, k) + (if y.Start() == k then [y] else [])
  {
    assert (s + [y])[..|s|] == s;
  }

  lemma {:induction false} InsertWithStart(t: seq<IntervalData>, x: IntervalData, k: real)
    requires SortedByStart(t)
    ensures WithStart(InsertByStart(t, x), k) == WithStart(t, k) + (if x.Start() == k then [x] else [])
    decreases |t|
  {
    if t == [] || t[|t| - 1].Start() <= x.Start() {
      WithStartSnoc(t, x, k);
    } else {
      var init, last := t[..|t| - 1], t[|t| - 1];
      assert t == init + [last];
      InsertWithStart(init, x, k);
      WithStartSnoc(InsertByStart(init, x), last, k);
      WithStartSnoc(init, last, k);
    }
  }

  /**
   * The stable ascending sort by start that `get_intervals` obtains from
   * Python's `sorted`, written as an insertion sort.
   */
  function SortByStart(s: seq<IntervalData>): (r: seq<IntervalData>)
    ensures SortedByStart(r)
    ensures multiset(r) == multiset(s)
    decreases |s|
  {
    if s == [] then []
    else
      var init, last := s[..|s| - 1], s[|s| - 1];
      assert s == init + [last];
      InsertSorted(SortByStart(init), last);
      InsertElements(SortByStart(init), last);
      InsertByStart(SortByStart(init), last)
  }

  /**
   * The sort is stable: the intervals sharing any one start come out in the
   * order they were stored in.
   */
  lemma {:induction false} SortByStartStable(s: seq<IntervalData>, k: real)
    ensures WithStart(SortByStart(s), k) == WithStart(s, k)
    decreases |s|
  {
    if s != [] {
      var init := s[..|s| - 1];
      assert s == init + [s[|s| - 1]];
      SortByStartStable(init, k);
      InsertWithStart(SortByStart(init), s[|s| - 1], k);
      WithStartSnoc(init, s[|s| - 1], k);
    }
  }

  // ---------------------------------------------------------------- contiguity

  /** Inside g each interval starts exactly where the previous one ends. */
  ghost predicate Chained(g: seq<IntervalData>)
  {
    forall j :: 0 < j < |g| ==> g[j - 1].End() == g[j].Start()
  }

  /** Group k does not continue group k - 1. */
  ghost predicate BreakAt(groups: seq<seq<IntervalData>>, k: int)
    requires 0 < k < |groups|
  {
    groups[k - 1] != [] && groups[k] != [] ==> groups[k - 1][|groups[k - 1]| - 1].End() != groups[k][0].Start()
  }

  /**
   * groups is the partition of s into maximal physically adjacent runs: the
   * groups concatenate to s, none is empty, inside a group each interval
   * starts exactly where the previous one ends, and across every group
   * boundary it does not.
   */
  ghost predicate IsRunPartition(groups: seq<seq<IntervalData>>, s: seq<IntervalData>)
  {
    Flatten(groups) == s && RunShaped(groups)
  }

  ghost predicate RunShaped(groups: seq<seq<IntervalData>>)
  {
    && (forall k :: 0 <= k < |groups| ==> groups[k] != [] && Chained(groups[k]))
    && (forall k :: 0 < k < |groups| ==> BreakAt(groups, k))
  }

  /** The scan of `group_contiguous_intervals` over an already sorted list. */
  method GroupContiguous(sorted: seq<IntervalData>) returns (groups: seq<seq<IntervalData>>)
    ensures IsRunPartition(groups, sorted)
    ensures sorted == [] ==> groups == []
  {
    groups := [];
    var currentGroup: seq<IntervalData> := [];
    var i := 0;
    while i < |sorted|
      invariant 0 <= i <= |sorted|
      invariant Flatten(groups) + currentGroup == sorted[..i]
      invariant currentGroup == [] <==> i == 0
      invariant RunShaped(groups)
      invariant Chained(currentGroup)
      invariant groups != [] ==> BreakAt(groups + [currentGroup], |groups|)
    {
      var interval := sorted[i];
      assert sorted[..i + 1] == sorted[..i] + [interval];
      if currentGroup == [] {
        currentGroup := [interval];
      } else {
        var lastInterval := currentGroup[|currentGroup| - 1];
        if lastInterval.End() == interval.Start() {
          currentGroup := currentGroup + [interval];
        } else {
          FlattenSnoc(groups, currentGroup);
          PartitionSnoc(groups, currentGroup);
          groups := groups + [currentGroup];
          currentGroup := [interval];
        }
      }
      i := i + 1;
    }
    assert sorted[..i] == sorted;
    if currentGroup != [] {
      FlattenSnoc(groups, currentGroup);
      PartitionSnoc(groups, currentGroup);
      groups := groups + [currentGroup];
    }
  }

  lemma PartitionSnoc(groups: seq<seq<IntervalData>>, g: seq<IntervalData>)
    requires RunShaped(groups)
    requires g != [] && Chained(g)
    requires groups != [] ==> BreakAt(groups + [g], |groups|)
    ensures RunShaped(groups + [g])
  {
    var gs := groups + [g];
    forall k | 0 <= k < |gs| ensures gs[k] != [] && Chained(gs[k]) {
      if k < |groups| {
        assert gs[k] == groups[k];
      }
    }
    forall k | 0 < k < |gs| ensures BreakAt(gs, k) {
      if k < |groups| {
        assert BreakAt(groups, k);
        assert gs[k - 1] == groups[k - 1] && gs[k] == groups[k];
      }
    }
  }

  lemma {:induction false} RunPartitionSplit(groups: seq<seq<IntervalData>>, s: seq<IntervalData>)
    requires IsRunPartition(groups, s) && groups != []
    ensures IsRunPartition(groups[..|groups| - 1], s[..|s| - |groups[|groups| - 1]|])
    ensures s == s[..|s| - |groups[|groups| - 1]|] + groups[|groups| - 1]
  {
    var n := |groups| - 1;
    var init := groups[..n];
    assert groups == init + [groups[n]];
    FlattenSnoc(init, groups[n]);
    forall k | 0 <= k < |init| ensures init[k] != [] && Chained(init[k]) {
      assert init[k] == groups[k];
    }
    forall k | 0 < k < |init| ensures BreakAt(init, k) {
      assert BreakAt(groups, k);
      assert init[k - 1] == groups[k - 1] && init[k] == groups[k];
    }
  }

  /**
   * The maximal-run partition of a sequence is unique: whatever produces
   * groups with the four properties above produces exactly the same groups.
   */
  lemma {:induction false} RunPartitionUnique(g1: seq<seq<IntervalData>>, g2: seq<seq<IntervalData>>, s: seq<IntervalData>)
    requires IsRunPartition(g1, s) && IsRunPartition(g2, s)
    ensures g1 == g2
    decreases |s|
  {
    if g1 == [] || g2 == [] {
      if g1 != [] {
        RunPartitionSplit(g1, s);
      } else if g2 != [] {
        RunPartitionSplit(g2, s);
      }
      return;
    }
    var n1, n2 := |g1| - 1, |g2| - 1;
    var l1, l2 := g1[n1], g2[n2];
    RunPartitionSplit(g1, s);
    RunPartitionSplit(g2, s);
    if |l1| < |l2| {
      ContinuationInLast(g2, s, |l1|);
      BoundaryBeforeLast(g1, s);
      assert false;
    } else if |l2| < |l1| {
      ContinuationInLast(g1, s, |l2|);
      BoundaryBeforeLast(g2, s);
      assert false;
    } else {
      RunPartitionUnique(g1[..n1], g2[..n2], s[..|s| - |l1|]);
      assert l1 == s[|s| - |l1|..] == l2;
      assert g1 == g1[..n1] + [l1];
      assert g2 == g2[..n2] + [l2];
    }
  }

  /** Inside the last group of a run partition, neighbours in s touch. */
  lemma ContinuationInLast(groups: seq<seq<IntervalData>>, s: seq<IntervalData>, q: nat)
    requires IsRunPartition(groups, s) && groups != []
    requires 0 < q < |groups[|groups| - 1]|
    ensures |s| - q - 1 >= 0 && s[|s| - q - 1].End() == s[|s| - q].Start()
  {
    var l := groups[|groups| - 1];
    RunPartitionSplit(groups, s);
    assert s[|s| - |l|..] == l;
    var j := |l| - q;
    assert s[|s| - q] == l[j] && s[|s| - q - 1] == l[j - 1];
    assert Chained(l);
  }

  /** Where the last group of a run partition begins, its neighbours in s do not touch. */
  lemma BoundaryBeforeLast(groups: seq<seq<IntervalData>>, s: seq<IntervalData>)
    requires IsRunPartition(groups, s) && groups != []
    requires |groups[|groups| - 1]| < |s|
    ensures var p := |s| - |groups[|groups| - 1]|; 0 < p && s[p - 1].End() != s[p].Start()
  {
    var n := |groups| - 1;
    var l := groups[n];
    RunPartitionSplit(groups, s);
    var p := |s| - |l|;
    var prefix := s[..p];
    assert s[p] == l[0];
    assert prefix != [] && prefix[|prefix| - 1] == s[p - 1];
    RunPartitionLastIsEnd(groups[..n], prefix);
    assert groups[..n][|groups[..n]| - 1] == groups[n - 1];
    assert BreakAt(groups, n);
  }

  lemma {:induction false} RunPartitionLastIsEnd(groups: seq<seq<IntervalData>>, s: seq<IntervalData>)
    requires IsRunPartition(groups, s) && s != []
    ensures groups != []
    ensures groups[|groups| - 1] != [] && groups[|groups| - 1][|groups[|groups| - 1]| - 1] == s[|s| - 1]
  {
    if groups != [] {
      RunPartitionSplit(groups, s);
    }
  }

  // ---------------------------------------------------------------- the hole

  /** One drill hole and the intervals added to it, in insertion order. */
  class HoleData {
    const holeID: string
    /** None until the first interval is added or the intervals are first read. */
    var intervals: Option<seq<IntervalData>>

    constructor (holeID: string)
      ensures this.holeID == holeID && intervals == None
    {
      this.holeID := holeID;
      intervals := None;
    }

    /** The dataclass's second, optional field given explicitly. */
    constructor WithIntervals(holeID: string, intervals: Option<seq<IntervalData>>)
      ensures this.holeID == holeID && this.intervals == intervals
    {
      this.holeID := holeID;
      this.intervals := intervals;
    }

    /** The stored intervals; an absent list reads as empty. */
    function Stored(): seq<IntervalData>
      reads this
    {
      if intervals.None? then [] else intervals.value
    }

    /** Appends one interval at the end, creating the list when it is absent. */
    method Add(interval: IntervalData)
      modifies this
      ensures intervals == Some(old(Stored()) + [interval])
      ensures |Stored()| == |old(Stored())| + 1 && Stored()[..|old(Stored())|] == old(Stored())
    {
      if intervals.None? || intervals.value == [] {
        intervals := Some([]);
      }
      intervals := Some(intervals.value + [interval]);
    }

    /**
     * A start-ascending, stable permutation of the stored intervals; the
     * stored list itself keeps its order (it is only created when absent).
     */
    method GetIntervals() returns (r: seq<IntervalData>)
      modifies this
      ensures intervals == Some(old(Stored()))
      ensures r == SortByStart(Stored())
      ensures SortedByStart(r) && multiset(r) == multiset(Stored())
      ensures forall k :: WithStart(r, k) == WithStart(Stored(), k)
    {
      if intervals.None? || intervals.value == [] {
        intervals := Some([]);
      }
      r := SortByStart(intervals.value);
      forall k {
        SortByStartStable(intervals.value, k);
      }
    }

    /** The maximal contiguous runs of the hole's intervals, in depth order. */
    method GroupContiguousIntervals() returns (groups: seq<seq<IntervalData>>)
      modifies this
      ensures intervals == Some(old(Stored()))
      ensures IsRunPartition(groups, SortByStart(Stored()))
      ensures old(Stored()) == [] ==> groups == []
    {
      var sorted := GetIntervals();
      groups := GroupContiguous(sorted);
    }
  }
}
