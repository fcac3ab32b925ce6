/**
 * The cutoff-intercept engine (library.py): trailing-tail trimming, the
 * length-weighted aggregation of a group into an Intercept, and the gap
 * tolerant scan of one contiguous run.
 */
module Engine {
  import opened Wrappers
  import opened Sequences
  import opened Hole

  // ---------------------------------------------------------------- tail trimming

  /**
   * The trimming test: the value is missing, zero (Python treats 0 as false
   * in `not c`) or below the threshold.
   */
  predicate BelowThreshold(v: Option<real>, threshold: real)
  {
    v.None? || v.value == 0.0 || v.value < threshold
  }

  /** The primary values of a list of intervals, in order. */
  function Values(s: seq<IntervalData>, assay: AssayType): (r: seq<Option<real>>)
    ensures |r| == |s|
    ensures forall i :: 0 <= i < |s| ==> r[i] == s[i].GetAssay(assay)
  {
    seq(|s|, i requires 0 <= i < |s| => s[i].GetAssay(assay))
  }

  /** How many leading entries survive trimming: everything up to the last value not below. */
  function KeptLength(vs: seq<Option<real>>, threshold: real): (n: nat)
    ensures n <= |vs|
    ensures forall i :: n <= i < |vs| ==> BelowThreshold(vs[i], threshold)
    ensures n > 0 ==> !BelowThreshold(vs[n - 1], threshold)
    decreases |vs|
  {
    if vs == [] then 0
    else if BelowThreshold(vs[|vs| - 1], threshold) then KeptLength(vs[..|vs| - 1], threshold)
    else |vs|
  }

  lemma KeptLengthUnique(vs: seq<Option<real>>, threshold: real, n: nat)
    requires n <= |vs|
    requires forall i :: n <= i < |vs| ==> BelowThreshold(vs[i], threshold)
    requires n > 0 ==> !BelowThreshold(vs[n - 1], threshold)
    ensures KeptLength(vs, threshold) == n
  {
  }

  /**
   * `remove_tail_below_threshold`: counts the trailing run of values below the
   * threshold from the end and drops it.
   */
  method RemoveTailBelowThreshold(group: seq<IntervalData>, assay: AssayType, threshold: real)
    returns (r: seq<IntervalData>)
    ensures |r| <= |group| && r == group[..|r|]
    ensures forall i :: |r| <= i < |group| ==> BelowThreshold(group[i].GetAssay(assay), threshold)
    ensures r != [] ==> !BelowThreshold(r[|r| - 1].GetAssay(assay), threshold)
    ensures |r| == KeptLength(Values(group, assay), threshold)
  {
    var tailLength := 0;
    while tailLength < |group|
      invariant 0 <= tailLength <= |group|
      invariant forall i :: |group| - tailLength <= i < |group| ==> BelowThreshold(group[i].GetAssay(assay), threshold)
    {
      var c := group[|group| - 1 - tailLength].GetAssay(assay);
      if BelowThreshold(c, threshold) {
        tailLength := tailLength + 1;
      } else {
        break;
      }
    }
    if tailLength == 0 {
      r := group;
    } else {
      r := group[..|group| - tailLength];
    }
    KeptLengthUnique(Values(group, assay), threshold, |r|);
  }

  // ---------------------------------------------------------------- aggregation

  /** Total length of a group. */
  function Distance(g: seq<IntervalData>): real
    decreases |g|
  {
    if g == [] then 0.0 else Distance(g[..|g| - 1]) + g[|g| - 1].Length()
  }

  /** One interval's value × length for an assay, or nothing when it lacks the assay. */
  function Contribution(interval: IntervalData, id: AssayId): real
  {
    match interval.ConcentrationMetres(id)
    case Some(m) => m
    case None => 0.0
  }

  /** Σ value × length over the intervals of g that carry the assay. */
  function MetresOf(g: seq<IntervalData>, id: AssayId): real
    decreases |g|
  {
    if g == [] then 0.0 else MetresOf(g[..|g| - 1], id) + Contribution(g[|g| - 1], id)
  }

  /** How often an assay identity is requested among the co-analytes. */
  function Occurrences(cos: seq<AssayType>, id: AssayId): nat
    decreases |cos|
  {
    if cos == [] then 0
    else Occurrences(cos[..|cos| - 1], id) + (if cos[|cos| - 1].Id() == id then 1 else 0)
  }

  /** n copies of x added up (the sum a requested-n-times co-analyte accumulates). */
  function Times(n: nat, x: real): real
  {
    if n == 0 then 0.0 else Times(n - 1, x) + x
  }

  lemma {:induction false} TimesAdd(n: nat, a: real, b: real)
    ensures Times(n, a + b) == Times(n, a) + Times(n, b)
  {
    if n > 0 {
      TimesAdd(n - 1, a, b);
    }
  }

  lemma {:induction false} TimesZero(n: nat)
    ensures Times(n, 0.0) == 0.0
  {
    if n > 0 {
      TimesZero(n - 1);
    }
  }

  function CoAnalyteIds(cos: seq<AssayType>): set<AssayId>
  {
    set co | co in cos :: co.Id()
  }

  /**
   * The co-analyte dictionary: one entry per requested identity, holding the
   * group's value × length sum for it once per time it was requested.
   */
  function CoAnalyteTotals(g: seq<IntervalData>, cos: seq<AssayType>): map<AssayId, real>
  {
    map id | id in CoAnalyteIds(cos) :: Times(Occurrences(cos, id), MetresOf(g, id))
  }

  /** Every interval of g carries the assay. */
  predicate Carries(g: seq<IntervalData>, id: AssayId)
  {
    forall i :: 0 <= i < |g| ==> id in g[i].assayData
  }

  /** A reported intercept: the five values `calculate_intercept` passes to Intercept. */
  datatype Intercept = Intercept(
    assay: AssayType,
    concentration: real,
    distance: real,
    span: (real, real),
    coAnalytes: map<AssayId, real>)

  datatype InterceptError =
    | MissingAssay(id: AssayId)   // KeyError: an interval of the group lacks the primary assay
    | ZeroDivision                // the group's total length is zero (also the empty group)

  /** What `calculate_intercept` computes for one group, or the error it raises. */
  function Aggregate(g: seq<IntervalData>, assay: AssayType, cos: seq<AssayType>): Result<Intercept, InterceptError>
  {
    if !Carries(g, assay.Id()) then Failure(MissingAssay(assay.Id()))
    else if Distance(g) == 0.0 then Failure(ZeroDivision)
    else Success(Intercept(assay, MetresOf(g, assay.Id()) / Distance(g), Distance(g), g[0].span, CoAnalyteTotals(g, cos)))
  }

  lemma OccurrencesSnoc(cos: seq<AssayType>, c: nat, id: AssayId)
    requires c < |cos|
    ensures Occurrences(cos[..c + 1], id) == Occurrences(cos[..c], id) + (if cos[c].Id() == id then 1 else 0)
  {
    assert cos[..c + 1][..c] == cos[..c];
  }

  /** One co-analyte of the inner loop adds the interval's contribution to its own entry only. */
  lemma CoAnalyteStep(cos: seq<AssayType>, c: nat, interval: IntervalData, before: map<AssayId, real>, coans: map<AssayId, real>, next: map<AssayId, real>)
    requires c < |cos|
    requires coans.Keys == CoAnalyteIds(cos) && before.Keys == coans.Keys
    requires forall id :: id in coans ==>
               coans[id] == before[id] + Times(Occurrences(cos[..c], id), Contribution(interval, id))
    requires var m := interval.ConcentrationMetres(cos[c].Id());
             next == if m.Some? then coans[cos[c].Id() := coans[cos[c].Id()] + m.value] else coans
    ensures next.Keys == CoAnalyteIds(cos)
    ensures forall id :: id in next ==>
              next[id] == before[id] + Times(Occurrences(cos[..c + 1], id), Contribution(interval, id))
  {
    var co := cos[c];
    assert co.Id() in coans;
    forall id | id in coans
      ensures Occurrences(cos[..c + 1], id) == Occurrences(cos[..c], id) + (if co.Id() == id then 1 else 0)
    {
      OccurrencesSnoc(cos, c, id);
    }
  }

  lemma CarriesSnoc(g: seq<IntervalData>, i: nat, id: AssayId)
    requires i < |g| && Carries(g[..i], id) && id in g[i].assayData
    ensures Carries(g[..i + 1], id)
  {
    assert forall j :: 0 <= j < i ==> g[..i + 1][j] == g[..i][j];
  }

  /** After the inner loop the dictionary holds the totals over one more interval. */
  lemma CoAnalyteTotalsSnoc(g: seq<IntervalData>, i: nat, cos: seq<AssayType>, before: map<AssayId, real>, coans: map<AssayId, real>)
    requires i < |g|
    requires before == CoAnalyteTotals(g[..i], cos)
    requires coans.Keys == CoAnalyteIds(cos)
    requires forall id :: id in coans ==>
               coans[id] == before[id] + Times(Occurrences(cos[..|cos|], id), Contribution(g[i], id))
    ensures coans == CoAnalyteTotals(g[..i + 1], cos)
  {
    assert cos[..|cos|] == cos;
    assert g[..i + 1][..i] == g[..i];
    forall id | id in coans
      ensures coans[id] == Times(Occurrences(cos, id), MetresOf(g[..i + 1], id))
    {
      assert MetresOf(g[..i + 1], id) == MetresOf(g[..i], id) + Contribution(g[i], id);
      TimesAdd(Occurrences(cos, id), MetresOf(g[..i], id), Contribution(g[i], id));
    }
  }

  /** The aggregate of a whole group, from the sums over it. */
  lemma AggregateFromSums(g: seq<IntervalData>, assay: AssayType, cos: seq<AssayType>, concentration: real, distance: real, coans: map<AssayId, real>)
    requires concentration == MetresOf(g, assay.Id()) && distance == Distance(g)
    requires Carries(g, assay.Id()) && coans == CoAnalyteTotals(g, cos)
    ensures distance == 0.0 ==> Aggregate(g, assay, cos) == Failure(ZeroDivision)
    ensures distance != 0.0 ==>
              && g != []
              && Aggregate(g, assay, cos) == Success(Intercept(assay, concentration / distance, distance, g[0].span, coans))
  {
  }

  /** An interval without the assay makes the group fail with MissingAssay. */
  lemma AggregateMissing(g: seq<IntervalData>, i: nat, assay: AssayType, cos: seq<AssayType>)
    requires i < |g| && g[i].ConcentrationMetres(assay.Id()).None?
    ensures Aggregate(g, assay, cos) == Failure(MissingAssay(assay.Id()))
  {
  }

  /** `calculate_intercept`: one pass accumulating value × length, length and co-analyte sums. */
  method CalculateIntercept(interceptIntervals: seq<IntervalData>, assayType: AssayType, coAnalytes: seq<AssayType>)
    returns (r: Result<Intercept, InterceptError>)
    ensures r == Aggregate(interceptIntervals, assayType, coAnalytes)
  {
    var g := interceptIntervals;
    var concentration := 0.0;
    var distance := 0.0;
    var coans: map<AssayId, real> := map[];
    for c := 0 to |coAnalytes|
      invariant coans.Keys == CoAnalyteIds(coAnalytes[..c])
      invariant forall id :: id in coans ==> coans[id] == 0.0
    {
      assert coAnalytes[..c + 1] == coAnalytes[..c] + [coAnalytes[c]];
      coans := coans[coAnalytes[c].Id() := 0.0];
    }
    assert coAnalytes[..|coAnalytes|] == coAnalytes;
    forall id | id in coans
      ensures coans[id] == Times(Occurrences(coAnalytes, id), MetresOf(g[..0], id))
    {
      TimesZero(Occurrences(coAnalytes, id));
    }
    for i := 0 to |g|
      invariant concentration == MetresOf(g[..i], assayType.Id())
      invariant distance == Distance(g[..i])
      invariant Carries(g[..i], assayType.Id())
      invariant coans == CoAnalyteTotals(g[..i], coAnalytes)
    {
      var interval := g[i];
      assert g[..i + 1][..i] == g[..i] && g[..i + 1][i] == interval;
      var m := interval.ConcentrationMetres(assayType.Id());
      if m.None? {
        AggregateMissing(g, i, assayType, coAnalytes);
        return Failure(MissingAssay(assayType.Id()));
      }
      CarriesSnoc(g, i, assayType.Id());
      concentration := concentration + m.value;
      distance := distance + interval.Length();
      ghost var before := coans;
      for c := 0 to |coAnalytes|
        invariant coans.Keys == CoAnalyteIds(coAnalytes)
        invariant forall id :: id in coans ==>
                    coans[id] == before[id] + Times(Occurrences(coAnalytes[..c], id), Contribution(interval, id))
      {
        var co := coAnalytes[c];
        var cm := interval.ConcentrationMetres(co.Id());
        ghost var prev := coans;
        if cm.Some? {
          coans := coans[co.Id() := coans[co.Id()] + cm.value];
        }
        CoAnalyteStep(coAnalytes, c, interval, before, prev, coans);
      }
      CoAnalyteTotalsSnoc(g, i, coAnalytes, before, coans);
    }
    assert g[..|g|] == g;
    AggregateFromSums(g, assayType, coAnalytes, concentration, distance, coans);
    if distance == 0.0 {
      return Failure(ZeroDivision);
    }
    r := Success(Intercept(assayType, concentration / distance, distance, g[0].span, coans));
  }

  // ---------------------------------------------------------------- the scan

  /** The scan's membership test `value >= cutoff`, a missing value reading as -1. */
  predicate Qualifies(v: Option<real>, cutoff: real)
  {
    (if v.None? then -1.0 else v.value) >= cutoff
  }

  /** The value at a run position (None outside the run). */
  function ValueAt(vals: seq<Option<real>>, x: nat): Option<real>
  {
    if x < |vals| then vals[x] else None
  }

  /** The values at a list of run positions. */
  function ValuesAt(vals: seq<Option<real>>, g: seq<nat>): (r: seq<Option<real>>)
    ensures |r| == |g|
    ensures forall j :: 0 <= j < |g| ==> r[j] == ValueAt(vals, g[j])
  {
    seq(|g|, j requires 0 <= j < |g| => ValueAt(vals, g[j]))
  }

  /** Tail trimming on a group of run positions. */
  function Trim(vals: seq<Option<real>>, g: seq<nat>, cutoff: real): seq<nat>
  {
    g[..KeptLength(ValuesAt(vals, g), cutoff)]
  }

  /**
   * The scan state after some prefix of the run: the groups already closed
   * (trimmed), the open group, the gap counter and the collecting flag.
   * Groups hold run positions.
   */
  datatype ScanState = ScanState(closed: seq<seq<nat>>, current: seq<nat>, gaps: nat, collecting: bool)

  /** One iteration of the scan, on run position i. */
  function Step(vals: seq<Option<real>>, cutoff: real, st: ScanState, i: nat): ScanState
  {
    var v := ValueAt(vals, i);
    var collecting := if v.None? then false else st.collecting;
    if Qualifies(v, cutoff) then
      if st.current == [] || st.gaps <= 2 then
        ScanState(st.closed, st.current + [i], st.gaps, true)
      else
        ScanState(st.closed + [Trim(vals, st.current, cutoff)], [i], 0, true)
    else if collecting then
      ScanState(st.closed, st.current + [i], st.gaps + 1, collecting)
    else
      st.(collecting := collecting)
  }

  /** The scan state after the first n positions of the run. */
  function ScanPrefix(vals: seq<Option<real>>, cutoff: real, n: nat): ScanState
    requires n <= |vals|
  {
    if n == 0 then ScanState([], [], 0, false)
    else Step(vals, cutoff, ScanPrefix(vals, cutoff, n - 1), n - 1)
  }

  /** After the scan the open group, if any, is trimmed and closed too. */
  function Finish(vals: seq<Option<real>>, cutoff: real, st: ScanState): seq<seq<nat>>
  {
    if st.current == [] then st.closed else st.closed + [Trim(vals, st.current, cutoff)]
  }

  /** Every position in the groups lies below n. */
  ghost predicate InRange(gs: seq<seq<nat>>, n: nat)
  {
    forall k, j :: 0 <= k < |gs| && 0 <= j < |gs[k]| ==> gs[k][j] < n
  }

  lemma {:induction false} ScanInRange(vals: seq<Option<real>>, cutoff: real, n: nat)
    requires n <= |vals|
    ensures InRange(ScanPrefix(vals, cutoff, n).closed, n)
    ensures forall j :: 0 <= j < |ScanPrefix(vals, cutoff, n).current| ==> ScanPrefix(vals, cutoff, n).current[j] < n
  {
    if n > 0 {
      ScanInRange(vals, cutoff, n - 1);
    }
  }

  /** The trimmed groups of run positions that the scan emits, in order. */
  function IndexGroups(vals: seq<Option<real>>, cutoff: real): (gs: seq<seq<nat>>)
    ensures InRange(gs, |vals|)
  {
    var st := ScanPrefix(vals, cutoff, |vals|);
    ScanInRange(vals, cutoff, |vals|);
    Finish(vals, cutoff, st)
  }

  /** The intervals at a list of run positions. */
  function Pick(run: seq<IntervalData>, g: seq<nat>): (r: seq<IntervalData>)
    requires forall j :: 0 <= j < |g| ==> g[j] < |run|
    ensures |r| == |g|
    ensures forall j :: 0 <= j < |g| ==> r[j] == run[g[j]]
  {
    seq(|g|, j requires 0 <= j < |g| => run[g[j]])
  }

  function PickAll(run: seq<IntervalData>, gs: seq<seq<nat>>): (r: seq<seq<IntervalData>>)
    requires InRange(gs, |run|)
    ensures |r| == |gs|
    ensures forall k :: 0 <= k < |gs| ==> r[k] == Pick(run, gs[k])
  {
    seq(|gs|, k requires 0 <= k < |gs| => Pick(run, gs[k]))
  }

  /** The trimmed interval groups the scan of one run emits for an assay and cutoff. */
  function CutoffGroups(run: seq<IntervalData>, assay: AssayType, cutoff: real): seq<seq<IntervalData>>
  {
    PickAll(run, IndexGroups(Values(run, assay), cutoff))
  }

  /** Aggregates groups in order; the first group that fails decides the error. */
  function InterceptsOf(groups: seq<seq<IntervalData>>, assay: AssayType, cos: seq<AssayType>): Result<seq<Intercept>, InterceptError>
    decreases |groups|
  {
    if groups == [] then Success([])
    else
      match InterceptsOf(groups[..|groups| - 1], assay, cos)
      case Failure(e) => Failure(e)
      case Success(done) =>
        match Aggregate(groups[|groups| - 1], assay, cos)
        case Failure(e) => Failure(e)
        case Success(x) => Success(done + [x])
  }

  // ---------------------------------------------------------------- scan facts the method needs

  lemma StepClosedGrows(vals: seq<Option<real>>, cutoff: real, st: ScanState, i: nat)
    ensures var st' := Step(vals, cutoff, st, i);
            |st.closed| <= |st'.closed| && st'.closed[..|st.closed|] == st.closed
  {
    var st' := Step(vals, cutoff, st, i);
    assert st'.closed == st.closed || st'.closed == st.closed + [Trim(vals, st.current, cutoff)];
  }

  lemma {:induction false} ClosedGrows(vals: seq<Option<real>>, cutoff: real, i: nat, n: nat)
    requires i <= n <= |vals|
    ensures var a, b := ScanPrefix(vals, cutoff, i).closed, ScanPrefix(vals, cutoff, n).closed;
            |a| <= |b| && b[..|a|] == a
    decreases n - i
  {
    if i < n {
      ClosedGrows(vals, cutoff, i, n - 1);
      StepClosedGrows(vals, cutoff, ScanPrefix(vals, cutoff, n - 1), n - 1);
    }
  }

  /** Groups closed during the scan stay, in order, at the front of the final list. */
  lemma ClosedPrefixOfResult(vals: seq<Option<real>>, cutoff: real, i: nat)
    requires i <= |vals|
    ensures var a, gs := ScanPrefix(vals, cutoff, i).closed, IndexGroups(vals, cutoff);
            |a| <= |gs| && gs[..|a|] == a
  {
    ClosedGrows(vals, cutoff, i, |vals|);
    var st := ScanPrefix(vals, cutoff, |vals|);
    if st.current != [] {
      assert (st.closed + [Trim(vals, st.current, cutoff)])[..|st.closed|] == st.closed;
    }
  }

  lemma {:induction false} InterceptsOfPrefixFailure(groups: seq<seq<IntervalData>>, n: nat, assay: AssayType, cos: seq<AssayType>)
    requires n <= |groups| && InterceptsOf(groups[..n], assay, cos).Failure?
    ensures InterceptsOf(groups, assay, cos) == InterceptsOf(groups[..n], assay, cos)
    decreases |groups| - n
  {
    if n < |groups| {
      var init := groups[..|groups| - 1];
      assert init[..n] == groups[..n];
      InterceptsOfPrefixFailure(init, n, assay, cos);
    } else {
      assert groups[..n] == groups;
    }
  }

  lemma InterceptsOfSnoc(groups: seq<seq<IntervalData>>, g: seq<IntervalData>, assay: AssayType, cos: seq<AssayType>, done: seq<Intercept>)
    requires InterceptsOf(groups, assay, cos) == Success(done)
    ensures Aggregate(g, assay, cos).Success? ==>
              InterceptsOf(groups + [g], assay, cos) == Success(done + [Aggregate(g, assay, cos).value])
    ensures Aggregate(g, assay, cos).Failure? ==>
              InterceptsOf(groups + [g], assay, cos) == Failure(Aggregate(g, assay, cos).error)
  {
    assert (groups + [g])[..|groups|] == groups;
  }

  lemma PickAllPrefix(run: seq<IntervalData>, gs: seq<seq<nat>>, n: nat)
    requires InRange(gs, |run|) && n <= |gs|
    ensures InRange(gs[..n], |run|)
    ensures PickAll(run, gs[..n]) == PickAll(run, gs)[..n]
  {
  }

  lemma PickAllSnoc(run: seq<IntervalData>, gs: seq<seq<nat>>, g: seq<nat>)
    requires InRange(gs + [g], |run|)
    ensures InRange(gs, |run|) && forall j :: 0 <= j < |g| ==> g[j] < |run|
    ensures PickAll(run, gs + [g]) == PickAll(run, gs) + [Pick(run, g)]
  {
    forall k, j | 0 <= k < |gs| && 0 <= j < |gs[k]| ensures gs[k][j] < |run| {
      assert (gs + [g])[k] == gs[k];
    }
    forall j | 0 <= j < |g| ensures g[j] < |run| {
      assert (gs + [g])[|gs|] == g;
    }
  }

  /** The four outcomes of one scan step, by the value at the position. */
  lemma ScanNext(vals: seq<Option<real>>, cutoff: real, i: nat)
    requires i < |vals|
    ensures var st, v, nx := ScanPrefix(vals, cutoff, i), vals[i], ScanPrefix(vals, cutoff, i + 1);
            && (Qualifies(v, cutoff) && (st.current == [] || st.gaps <= 2) ==>
                  nx == ScanState(st.closed, st.current + [i], st.gaps, true))
            && (Qualifies(v, cutoff) && !(st.current == [] || st.gaps <= 2) ==>
                  nx == ScanState(st.closed + [Trim(vals, st.current, cutoff)], [i], 0, true))
            && (!Qualifies(v, cutoff) && v.Some? && st.collecting ==>
                  nx == ScanState(st.closed, st.current + [i], st.gaps + 1, true))
            && (!Qualifies(v, cutoff) && !(v.Some? && st.collecting) ==>
                  nx == st.(collecting := v.Some? && st.collecting))
  {
  }

  /** The emitted groups: those closed during the scan, then the open group trimmed. */
  lemma CutoffGroupsFinish(run: seq<IntervalData>, assay: AssayType, cutoff: real)
    ensures var st := ScanPrefix(Values(run, assay), cutoff, |run|);
            InRange(st.closed, |run|) && (forall j :: 0 <= j < |st.current| ==> st.current[j] < |run|)
            && CutoffGroups(run, assay, cutoff)
               == if st.current == [] then PickAll(run, st.closed)
                  else PickAll(run, st.closed) + [Pick(run, Trim(Values(run, assay), st.current, cutoff))]
  {
    var vals := Values(run, assay);
    var st := ScanPrefix(vals, cutoff, |run|);
    ScanInRange(vals, cutoff, |run|);
    if st.current != [] {
      PickAllSnoc(run, st.closed, Trim(vals, st.current, cutoff));
    }
  }

  lemma PickSnoc(run: seq<IntervalData>, g: seq<nat>, i: nat)
    requires forall j :: 0 <= j < |g| ==> g[j] < |run|
    requires i < |run|
    ensures forall j :: 0 <= j < |g + [i]| ==> (g + [i])[j] < |run|
    ensures Pick(run, g + [i]) == Pick(run, g) + [run[i]]
  {
  }

  /** Trimming the picked intervals picks the trimmed positions. */
  lemma PickTrim(run: seq<IntervalData>, assay: AssayType, cutoff: real, g: seq<nat>, trimmed: seq<IntervalData>)
    requires forall j :: 0 <= j < |g| ==> g[j] < |run|
    requires |trimmed| == KeptLength(Values(Pick(run, g), assay), cutoff)
    requires trimmed == Pick(run, g)[..|trimmed|]
    ensures trimmed == Pick(run, Trim(Values(run, assay), g, cutoff))
  {
    assert Values(Pick(run, g), assay) == ValuesAt(Values(run, assay), g);
  }

  /**
   * The scan loop of `calculate_intercepts_from_group` over one contiguous
   * run: it returns the trimmed groups, in the order the scan closes them.
   */
  method CutoffScan(contiguousIntervals: seq<IntervalData>, assay: AssayType, cutoff: real)
    returns (groups: seq<seq<IntervalData>>)
    ensures groups == CutoffGroups(contiguousIntervals, assay, cutoff)
  {
    var run := contiguousIntervals;
    ghost var vals := Values(run, assay);
    groups := [];
    var currentGroup: seq<IntervalData> := [];
    var currentGaps: nat := 0;
    var collecting := false;
    ghost var st := ScanPrefix(vals, cutoff, 0);
    for i := 0 to |run|
      invariant st == ScanPrefix(vals, cutoff, i)
      invariant InRange(st.closed, |run|)
      invariant forall j :: 0 <= j < |st.current| ==> st.current[j] < |run|
      invariant currentGroup == Pick(run, st.current)
      invariant currentGaps == st.gaps && collecting == st.collecting
      invariant groups == PickAll(run, st.closed)
    {
      ScanNext(vals, cutoff, i);
      ScanInRange(vals, cutoff, i + 1);
      var interval := run[i];
      var value := interval.GetAssay(assay);
      assert vals[i] == value;
      // a missing value stops collecting and compares as -1
      collecting := collecting && value.Some?;
      var v := if value.None? then -1.0 else value.value;
      if v >= cutoff {
        if currentGroup == [] || currentGaps <= 2 {
          PickSnoc(run, st.current, i);
          currentGroup := currentGroup + [interval];
          collecting := true;
        } else {
          var trimmed := RemoveTailBelowThreshold(currentGroup, assay, cutoff);
          PickTrim(run, assay, cutoff, st.current, trimmed);
          PickAllSnoc(run, st.closed, Trim(vals, st.current, cutoff));
          groups := groups + [trimmed];
          currentGroup := [interval];
          collecting := true;
          currentGaps := 0;
        }
      } else if collecting {
        PickSnoc(run, st.current, i);
        currentGroup := currentGroup + [interval];
        currentGaps := currentGaps + 1;
      }
      st := ScanPrefix(vals, cutoff, i + 1);
    }
    CutoffGroupsFinish(run, assay, cutoff);
    if currentGroup != [] {
      var trimmed := RemoveTailBelowThreshold(currentGroup, assay, cutoff);
      PickTrim(run, assay, cutoff, st.current, trimmed);
      groups := groups + [trimmed];
    }
  }

  /**
   * `calculate_intercepts_from_group`: scans the run, then aggregates each
   * trimmed group in order; the first aggregation error is raised.
   */
  method CalculateInterceptsFromGroup(contiguousIntervals: seq<IntervalData>, assay: AssayType, cutoff: real, coAnalytes: seq<AssayType>)
    returns (r: Result<seq<Intercept>, InterceptError>)
    ensures r == InterceptsOf(CutoffGroups(contiguousIntervals, assay, cutoff), assay, coAnalytes)
  {
    var groups := CutoffScan(contiguousIntervals, assay, cutoff);
    var intercepts: seq<Intercept> := [];
    for k := 0 to |groups|
      invariant InterceptsOf(groups[..k], assay, coAnalytes) == Success(intercepts)
    {
      assert groups[..k + 1] == groups[..k] + [groups[k]];
      InterceptsOfSnoc(groups[..k], groups[k], assay, coAnalytes, intercepts);
      var intercept := CalculateIntercept(groups[k], assay, coAnalytes);
      if intercept.Failure? {
        InterceptsOfPrefixFailure(groups, k + 1, assay, coAnalytes);
        return Failure(intercept.error);
      }
      intercepts := intercepts + [intercept.value];
    }
    assert groups[..|groups|] == groups;
    r := Success(intercepts);
  }
}
