/**
 * What `calculate_intercept` reports: a length-weighted average of the
 * primary assay, the total length, and one co-analyte entry per requested
 * identity; and when the scan's groups all aggregate without error.
 */
module InterceptProperties {
  import opened Wrappers
  import opened Sequences
  import opened Hole
  import opened Engine
  import opened EngineProperties

  // ---------------------------------------------------------------- arithmetic helpers

  lemma MulLe(a: real, b: real, c: real)
    requires a <= b && c >= 0.0
    ensures a * c <= b * c
  {
    assert b * c - a * c == (b - a) * c;
  }

  lemma MulLt(a: real, b: real, c: real)
    requires a < b && c > 0.0
    ensures a * c < b * c
  {
    assert b * c - a * c == (b - a) * c;
  }

  lemma Distribute(a: real, b: real, c: real)
    ensures a * (b + c) == a * b + a * c
  {
  }

  lemma {:induction false} DivBetween(m: real, d: real, lo: real, hi: real)
    requires d > 0.0 && lo * d <= m <= hi * d
    ensures lo <= m / d <= hi
  {
    var q := m / d;
    assert q * d == m;
    if q < lo {
      MulLt(q, lo, d);
    }
    if q > hi {
      MulLt(hi, q, d);
    }
  }

  // ---------------------------------------------------------------- length and weighted sum

  /** Intervals whose end is not before their start. */
  ghost predicate Forward(g: seq<IntervalData>)
  {
    forall i :: 0 <= i < |g| ==> g[i].Start() <= g[i].End()
  }

  lemma {:induction false} DistanceNonnegative(g: seq<IntervalData>)
    requires Forward(g)
    ensures Distance(g) >= 0.0
    decreases |g|
  {
    if g != [] {
      DistanceNonnegative(g[..|g| - 1]);
    }
  }

  /** A non-empty group of intervals of positive length has positive total length. */
  lemma {:induction false} DistancePositive(g: seq<IntervalData>)
    requires g != [] && forall i :: 0 <= i < |g| ==> g[i].Start() < g[i].End()
    ensures Distance(g) > 0.0
    decreases |g|
  {
    var init := g[..|g| - 1];
    if init != [] {
      DistancePositive(init);
    }
  }

  /**
   * When every interval carries the assay with a value in [lo, hi], the
   * value × length sum lies between lo and hi times the total length.
   */
  lemma {:induction false} MetresBetween(g: seq<IntervalData>, id: AssayId, lo: real, hi: real)
    requires Forward(g)
    requires forall i :: 0 <= i < |g| ==> id in g[i].assayData && lo <= g[i].assayData[id] <= hi
    ensures lo * Distance(g) <= MetresOf(g, id) <= hi * Distance(g)
    decreases |g|
  {
    if g != [] {
      var init, x := g[..|g| - 1], g[|g| - 1];
      assert Forward(init) by {
        assert forall i :: 0 <= i < |init| ==> init[i] == g[i];
      }
      MetresBetween(init, id, lo, hi);
      var len, v := x.Length(), x.assayData[id];
      assert MetresOf(g, id) == MetresOf(init, id) + v * len;
      SumBetween(lo, hi, Distance(init), MetresOf(init, id), len, v, Distance(g), MetresOf(g, id));
    } else {
      ZeroBetween(lo, hi, Distance(g), MetresOf(g, id));
    }
  }

  lemma ZeroBetween(lo: real, hi: real, d: real, m: real)
    requires d == 0.0 && m == 0.0
    ensures lo * d <= m <= hi * d
  {
  }

  /** One more weighted term keeps the weighted sum between the bounds. */
  lemma {:induction false} SumBetween(lo: real, hi: real, d0: real, m0: real, len: real, v: real, d: real, m: real)
    requires lo * d0 <= m0 <= hi * d0 && lo <= v <= hi && len >= 0.0
    requires d == d0 + len && m == m0 + v * len
    ensures lo * d <= m <= hi * d
  {
    MulLe(lo, v, len);
    MulLe(v, hi, len);
    Distribute(lo, d0, len);
    Distribute(hi, d0, len);
  }

  /**
   * The reported concentration is the length-weighted average of the group's
   * values: it lies between their least and greatest value, and the reported
   * distance is the positive total length.
   */
  lemma {:induction false} ConcentrationWithinRange(g: seq<IntervalData>, assay: AssayType, cos: seq<AssayType>, lo: real, hi: real)
    requires Aggregate(g, assay, cos).Success? && Forward(g)
    requires forall i :: 0 <= i < |g| && g[i].GetAssay(assay).Some? ==> lo <= g[i].GetAssay(assay).value <= hi
    ensures var x := Aggregate(g, assay, cos).value;
            && x.distance == Distance(g) && x.distance > 0.0
            && lo <= x.concentration <= hi
  {
    forall i | 0 <= i < |g|
      ensures assay.Id() in g[i].assayData && lo <= g[i].assayData[assay.Id()] <= hi
    {
      assert g[i].GetAssay(assay).Some?;
    }
    MetresBetween(g, assay.Id(), lo, hi);
    DistanceNonnegative(g);
    DivBetween(MetresOf(g, assay.Id()), Distance(g), lo, hi);
  }

  /** A group with one value throughout reports that value. */
  lemma {:induction false} UniformConcentration(g: seq<IntervalData>, assay: AssayType, cos: seq<AssayType>, c: real)
    requires Aggregate(g, assay, cos).Success? && Forward(g)
    requires forall i :: 0 <= i < |g| ==> g[i].GetAssay(assay) == Some(c)
    ensures Aggregate(g, assay, cos).value.concentration == c
  {
    ConcentrationWithinRange(g, assay, cos, c, c);
  }

  // ---------------------------------------------------------------- co-analytes

  lemma {:induction false} TimesIsProduct(n: nat, x: real)
    ensures Times(n, x) == (n as real) * x
  {
    if n > 0 {
      TimesIsProduct(n - 1, x);
      assert (n as real) * x == ((n - 1) as real) * x + x;
    }
  }

  lemma {:induction false} OccurrencesPositive(cos: seq<AssayType>, c: nat)
    requires c < |cos|
    ensures Occurrences(cos, cos[c].Id()) >= 1
    decreases |cos|
  {
    if c < |cos| - 1 {
      OccurrencesPositive(cos[..|cos| - 1], c);
    }
  }

  lemma {:induction false} MetresOfAbsent(g: seq<IntervalData>, id: AssayId)
    requires forall i :: 0 <= i < |g| ==> id !in g[i].assayData
    ensures MetresOf(g, id) == 0.0
    decreases |g|
  {
    if g != [] {
      MetresOfAbsent(g[..|g| - 1], id);
    }
  }

  /** The co-analyte dictionary has an entry exactly for each requested identity. */
  lemma {:induction false} CoAnalyteKeys(g: seq<IntervalData>, cos: seq<AssayType>, id: AssayId)
    ensures id in CoAnalyteTotals(g, cos) <==> exists c :: 0 <= c < |cos| && cos[c].Id() == id
  {
    if id !in CoAnalyteTotals(g, cos) {
      forall c | 0 <= c < |cos| ensures cos[c].Id() != id {
        assert cos[c] in cos;
      }
    }
  }

  /**
   * An entry holds the group's value × length sum once per time its identity
   * was requested: a repeated co-analyte is counted again.
   */
  lemma {:induction false} CoAnalyteEntry(g: seq<IntervalData>, cos: seq<AssayType>, c: nat, id: AssayId)
    requires c < |cos| && cos[c].Id() == id
    ensures id in CoAnalyteTotals(g, cos)
    ensures Occurrences(cos, id) >= 1
    ensures CoAnalyteTotals(g, cos)[id] == (Occurrences(cos, id) as real) * MetresOf(g, id)
  {
    assert id in CoAnalyteIds(cos) by {
      assert cos[c] in cos;
    }
    OccurrencesPositive(cos, c);
    var n, m := Occurrences(cos, id), MetresOf(g, id);
    assert CoAnalyteTotals(g, cos)[id] == Times(n, m);
    EntryIsProduct(CoAnalyteTotals(g, cos)[id], n, m);
  }

  lemma EntryIsProduct(t: real, n: nat, m: real)
    requires t == Times(n, m)
    ensures t == (n as real) * m
  {
    TimesIsProduct(n, m);
  }

  /** Intervals that lack a co-analyte add nothing to its entry. */
  lemma {:induction false} CoAnalyteAbsent(g: seq<IntervalData>, cos: seq<AssayType>, id: AssayId)
    requires id in CoAnalyteTotals(g, cos)
    requires forall i :: 0 <= i < |g| ==> id !in g[i].assayData
    ensures CoAnalyteTotals(g, cos)[id] == 0.0
  {
    MetresOfAbsent(g, id);
    TimesZero(Occurrences(cos, id));
  }

  // ---------------------------------------------------------------- no failure

  /** The groups aggregate in order when each one does. */
  lemma {:induction false} InterceptsOfAll(groups: seq<seq<IntervalData>>, assay: AssayType, cos: seq<AssayType>)
    requires forall k :: 0 <= k < |groups| ==> Aggregate(groups[k], assay, cos).Success?
    ensures InterceptsOf(groups, assay, cos).Success?
    ensures var xs := InterceptsOf(groups, assay, cos).value;
            |xs| == |groups| && forall k :: 0 <= k < |groups| ==> xs[k] == Aggregate(groups[k], assay, cos).value
    decreases |groups|
  {
    if groups != [] {
      InterceptsOfAll(groups[..|groups| - 1], assay, cos);
    }
  }

  /** A picked group whose positions all carry the assay, over intervals of positive length, aggregates. */
  lemma {:induction false} PickedGroupAggregates(run: seq<IntervalData>, assay: AssayType, cos: seq<AssayType>, g: seq<nat>)
    requires forall i :: 0 <= i < |run| ==> run[i].Start() < run[i].End()
    requires g != [] && forall j :: 0 <= j < |g| ==> g[j] < |run| && run[g[j]].GetAssay(assay).Some?
    ensures Aggregate(Pick(run, g), assay, cos).Success?
  {
    var p := Pick(run, g);
    assert Carries(p, assay.Id());
    DistancePositive(p);
  }

  /**
   * With a positive cutoff and intervals of positive length, no group the
   * scan emits makes `calculate_intercepts_from_group` raise: one intercept
   * comes back per group, in order.
   */
  lemma {:induction false} InterceptsSucceed(run: seq<IntervalData>, assay: AssayType, cutoff: real, cos: seq<AssayType>)
    requires cutoff > 0.0
    requires forall i :: 0 <= i < |run| ==> run[i].Start() < run[i].End()
    ensures var groups := CutoffGroups(run, assay, cutoff);
            && InterceptsOf(groups, assay, cos).Success?
            && |InterceptsOf(groups, assay, cos).value| == |groups|
  {
    var vals := Values(run, assay);
    var gs := IndexGroups(vals, cutoff);
    var groups := CutoffGroups(run, assay, cutoff);
    IndexGroupsGood(vals, cutoff);
    IndexGroupsNoMissing(vals, cutoff);
    forall k | 0 <= k < |groups|
      ensures Aggregate(groups[k], assay, cos).Success?
    {
      assert GoodGroup(vals, cutoff, gs[k]);
      PickedGroupAggregates(run, assay, cos, gs[k]);
    }
    InterceptsOfAll(groups, assay, cos);
  }
}
