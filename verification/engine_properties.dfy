/**
 * What the cutoff scan of `calculate_intercepts_from_group` guarantees about
 * the groups it emits, and what the aggregation guarantees about an
 * intercept. Unless stated otherwise the cutoff is positive, the regime in
 * which the trimming test and the scan's membership test are complements.
 */
module EngineProperties {
  import opened Wrappers
  import opened Sequences
  import opened Hole
  import opened Engine

  // ---------------------------------------------------------------- trimming

  /** With a positive cutoff, "below the threshold" is exactly "does not qualify". */
  lemma BelowIffNotQualifies(v: Option<real>, cutoff: real)
    requires cutoff > 0.0
    ensures BelowThreshold(v, cutoff) <==> !Qualifies(v, cutoff)
  {
  }

  /** Trimming a trimmed list removes nothing more. */
  lemma {:induction false} KeptLengthIdempotent(vs: seq<Option<real>>, threshold: real)
    ensures KeptLength(vs[..KeptLength(vs, threshold)], threshold) == KeptLength(vs, threshold)
  {
    var n := KeptLength(vs, threshold);
    KeptLengthUnique(vs[..n], threshold, n);
  }

  lemma ValuesAtSnoc(vals: seq<Option<real>>, g: seq<nat>, i: nat)
    ensures ValuesAt(vals, g + [i]) == ValuesAt(vals, g) + [ValueAt(vals, i)]
  {
  }

  /** Appending a qualifying position: nothing is trimmed. */
  lemma TrimSnocQualifies(vals: seq<Option<real>>, g: seq<nat>, i: nat, cutoff: real)
    requires cutoff > 0.0 && Qualifies(ValueAt(vals, i), cutoff)
    ensures Trim(vals, g + [i], cutoff) == g + [i]
  {
    ValuesAtSnoc(vals, g, i);
  }

  /** Appending a sub-cutoff position: it is trimmed away again. */
  lemma TrimSnocBelow(vals: seq<Option<real>>, g: seq<nat>, i: nat, cutoff: real)
    requires cutoff > 0.0 && !Qualifies(ValueAt(vals, i), cutoff)
    ensures Trim(vals, g + [i], cutoff) == Trim(vals, g, cutoff)
  {
    ValuesAtSnoc(vals, g, i);
    var vs := ValuesAt(vals, g);
    assert (vs + [ValueAt(vals, i)])[..|vs|] == vs;
    assert (g + [i])[..KeptLength(vs, cutoff)] == g[..KeptLength(vs, cutoff)];
  }

  /** Trimming never drops a qualifying position. */
  lemma TrimKeepsQualifying(vals: seq<Option<real>>, g: seq<nat>, cutoff: real, x: nat)
    requires cutoff > 0.0 && x in g && Qualifies(ValueAt(vals, x), cutoff)
    ensures x in Trim(vals, g, cutoff)
  {
    var vs := ValuesAt(vals, g);
    var j :| 0 <= j < |g| && g[j] == x;
    assert !BelowThreshold(vs[j], cutoff);
    assert Trim(vals, g, cutoff)[j] == x;
  }

  /** A group that starts qualifying keeps its start and ends qualifying after trimming. */
  lemma TrimGood(vals: seq<Option<real>>, g: seq<nat>, cutoff: real)
    requires cutoff > 0.0 && g != [] && Qualifies(ValueAt(vals, g[0]), cutoff)
    ensures var t := Trim(vals, g, cutoff);
            t != [] && t[0] == g[0] && Qualifies(ValueAt(vals, t[|t| - 1]), cutoff)
  {
    var vs := ValuesAt(vals, g);
    assert !BelowThreshold(vs[0], cutoff);
    var n := KeptLength(vs, cutoff);
    assert n > 0;
    assert !BelowThreshold(vs[n - 1], cutoff);
  }

  // ---------------------------------------------------------------- group shape

  /** How many positions of g hold a value that does not reach the cutoff. */
  function SubCutoff(vals: seq<Option<real>>, cutoff: real, g: seq<nat>): nat
    decreases |g|
  {
    if g == [] then 0
    else SubCutoff(vals, cutoff, g[..|g| - 1]) + (if Qualifies(ValueAt(vals, g[|g| - 1]), cutoff) then 0 else 1)
  }

  lemma SubCutoffSnoc(vals: seq<Option<real>>, cutoff: real, g: seq<nat>, i: nat)
    ensures SubCutoff(vals, cutoff, g + [i])
            == SubCutoff(vals, cutoff, g) + (if Qualifies(ValueAt(vals, i), cutoff) then 0 else 1)
  {
    assert (g + [i])[..|g|] == g;
  }

  /**
   * A reported group: non-empty, first and last value reach the cutoff, at
   * most two values in between do not, and no value is missing.
   */
  ghost predicate GoodGroup(vals: seq<Option<real>>, cutoff: real, g: seq<nat>)
  {
    && g != []
    && Qualifies(ValueAt(vals, g[0]), cutoff)
    && Qualifies(ValueAt(vals, g[|g| - 1]), cutoff)
    && SubCutoff(vals, cutoff, g) <= 2
    && forall j :: 0 <= j < |g| ==> ValueAt(vals, g[j]).Some?
  }

  ghost predicate AllGood(vals: seq<Option<real>>, cutoff: real, gs: seq<seq<nat>>)
  {
    forall k :: 0 <= k < |gs| ==> GoodGroup(vals, cutoff, gs[k])
  }

  /**
   * Induction over the scan: a property of the state and the number of
   * positions scanned that holds after m positions and that every later step
   * keeps holds after every longer prefix.
   */
  lemma {:induction false} ScanInduction(vals: seq<Option<real>>, cutoff: real, P: (ScanState, nat) -> bool, m: nat, n: nat)
    requires m <= n <= |vals|
    requires P(ScanPrefix(vals, cutoff, m), m)
    requires forall st: ScanState, i: nat :: m <= i < |vals| && P(st, i) ==> P(Step(vals, cutoff, st, i), i + 1)
    ensures P(ScanPrefix(vals, cutoff, n), n)
    decreases n
  {
    if m < n {
      ScanInduction(vals, cutoff, P, m, n - 1);
    }
  }

  /** The shape of the open group during the scan. */
  ghost predicate OpenShape(vals: seq<Option<real>>, cutoff: real, st: ScanState)
  {
    && (st.current != [] ==> Qualifies(ValueAt(vals, st.current[0]), cutoff))
    && (st.collecting ==> st.current != [])
    && st.gaps == SubCutoff(vals, cutoff, st.current)
    && SubCutoff(vals, cutoff, Trim(vals, st.current, cutoff)) <= 2
    && forall j :: 0 <= j < |st.current| ==> ValueAt(vals, st.current[j]).Some?
  }

  lemma OpenShapeStep(vals: seq<Option<real>>, cutoff: real, st: ScanState, i: nat)
    requires cutoff > 0.0 && OpenShape(vals, cutoff, st)
    ensures OpenShape(vals, cutoff, Step(vals, cutoff, st, i))
  {
    var v := ValueAt(vals, i);
    if Qualifies(v, cutoff) {
      if st.current == [] || st.gaps <= 2 {
        OpenShapeExtend(vals, cutoff, st, i);
      } else {
        SubCutoffSnoc(vals, cutoff, [], i);
        TrimSnocQualifies(vals, [], i, cutoff);
      }
    } else if v.Some? && st.collecting {
      OpenShapeGap(vals, cutoff, st, i);
    }
  }

  lemma OpenShapeExtend(vals: seq<Option<real>>, cutoff: real, st: ScanState, i: nat)
    requires cutoff > 0.0 && OpenShape(vals, cutoff, st)
    requires Qualifies(ValueAt(vals, i), cutoff) && (st.current == [] || st.gaps <= 2)
    ensures OpenShape(vals, cutoff, ScanState(st.closed, st.current + [i], st.gaps, true))
  {
    SubCutoffSnoc(vals, cutoff, st.current, i);
    TrimSnocQualifies(vals, st.current, i, cutoff);
  }

  lemma OpenShapeGap(vals: seq<Option<real>>, cutoff: real, st: ScanState, i: nat)
    requires cutoff > 0.0 && OpenShape(vals, cutoff, st)
    requires !Qualifies(ValueAt(vals, i), cutoff) && ValueAt(vals, i).Some? && st.collecting
    ensures OpenShape(vals, cutoff, ScanState(st.closed, st.current + [i], st.gaps + 1, true))
  {
    SubCutoffSnoc(vals, cutoff, st.current, i);
    TrimSnocBelow(vals, st.current, i, cutoff);
  }

  lemma ScanOpenShape(vals: seq<Option<real>>, cutoff: real, n: nat)
    requires cutoff > 0.0 && n <= |vals|
    ensures OpenShape(vals, cutoff, ScanPrefix(vals, cutoff, n))
  {
    forall st: ScanState, i: nat | OpenShape(vals, cutoff, st)
      ensures OpenShape(vals, cutoff, Step(vals, cutoff, st, i))
    {
      OpenShapeStep(vals, cutoff, st, i);
    }
    ScanInduction(vals, cutoff, (st: ScanState, i: nat) => OpenShape(vals, cutoff, st), 0, n);
  }

  /** The open group, once trimmed, is a good group. */
  lemma CloseGood(vals: seq<Option<real>>, cutoff: real, st: ScanState)
    requires cutoff > 0.0 && OpenShape(vals, cutoff, st) && st.current != []
    ensures GoodGroup(vals, cutoff, Trim(vals, st.current, cutoff))
  {
    TrimGood(vals, st.current, cutoff);
  }

  lemma ClosedGoodStep(vals: seq<Option<real>>, cutoff: real, st: ScanState, i: nat)
    requires cutoff > 0.0 && OpenShape(vals, cutoff, st)
    requires AllGood(vals, cutoff, st.closed)
    ensures AllGood(vals, cutoff, Step(vals, cutoff, st, i).closed)
  {
    if Qualifies(ValueAt(vals, i), cutoff) && !(st.current == [] || st.gaps <= 2) {
      CloseGood(vals, cutoff, st);
      GoodSnoc(vals, cutoff, st.closed, Trim(vals, st.current, cutoff));
    }
  }

  lemma GoodSnoc(vals: seq<Option<real>>, cutoff: real, gs: seq<seq<nat>>, g: seq<nat>)
    requires AllGood(vals, cutoff, gs) && GoodGroup(vals, cutoff, g)
    ensures AllGood(vals, cutoff, gs + [g])
  {
  }

  lemma ScanClosedGood(vals: seq<Option<real>>, cutoff: real, n: nat)
    requires cutoff > 0.0 && n <= |vals|
    ensures AllGood(vals, cutoff, ScanPrefix(vals, cutoff, n).closed)
  {
    forall st: ScanState, i: nat | OpenShape(vals, cutoff, st) && AllGood(vals, cutoff, st.closed)
      ensures OpenShape(vals, cutoff, Step(vals, cutoff, st, i)) && AllGood(vals, cutoff, Step(vals, cutoff, st, i).closed)
    {
      OpenShapeStep(vals, cutoff, st, i);
      ClosedGoodStep(vals, cutoff, st, i);
    }
    ScanInduction(vals, cutoff, (st: ScanState, i: nat) => OpenShape(vals, cutoff, st) && AllGood(vals, cutoff, st.closed), 0, n);
  }

  // ---------------------------------------------------------------- order and coverage

  /** Everything the scan has placed so far, in order: the closed groups, then the open one. */
  function Placed(st: ScanState): seq<nat>
  {
    Flatten(st.closed) + st.current
  }

  lemma IncreasingPrefix(s: seq<nat>, m: nat)
    requires Increasing(s) && m <= |s|
    ensures Increasing(s[..m])
  {
    assert forall p :: 0 <= p < m ==> s[..m][p] == s[p];
  }

  lemma IncreasingSnoc(s: seq<nat>, i: nat)
    requires Increasing(s) && forall p :: 0 <= p < |s| ==> s[p] < i
    ensures Increasing(s + [i])
  {
  }

  /** Closing the open group keeps a prefix of what was placed. */
  lemma PlacedAfterClose(st: ScanState, t: seq<nat>)
    requires |t| <= |st.current| && t == st.current[..|t|]
    ensures Flatten(st.closed + [t]) == Placed(st)[..|Flatten(st.closed)| + |t|]
  {
    FlattenSnoc(st.closed, t);
  }

  /** Whatever a step places goes after everything placed before, and nothing is reordered. */
  lemma OrderedStep(vals: seq<Option<real>>, cutoff: real, st: ScanState, i: nat)
    requires PlacedBelow(st, i)
    ensures PlacedBelow(Step(vals, cutoff, st, i), i + 1)
  {
    var v := ValueAt(vals, i);
    if Qualifies(v, cutoff) && !(st.current == [] || st.gaps <= 2) {
      OrderedClose(st, Trim(vals, st.current, cutoff), i);
    } else if Qualifies(v, cutoff) || (v.Some? && st.collecting) {
      OrderedSnoc(st, Step(vals, cutoff, st, i), i);
    }
  }

  lemma OrderedSnoc(st: ScanState, st': ScanState, i: nat)
    requires PlacedBelow(st, i) && Placed(st') == Placed(st) + [i]
    ensures PlacedBelow(st', i + 1)
  {
    IncreasingSnoc(Placed(st), i);
  }

  lemma OrderedClose(st: ScanState, t: seq<nat>, i: nat)
    requires PlacedBelow(st, i)
    requires |t| <= |st.current| && t == st.current[..|t|]
    ensures PlacedBelow(ScanState(st.closed + [t], [i], 0, true), i + 1)
  {
    var s := Placed(st);
    PlacedAfterClose(st, t);
    IncreasingPrefix(s, |Flatten(st.closed)| + |t|);
    IncreasingSnoc(s[..|Flatten(st.closed)| + |t|], i);
  }

  /** What has been placed is increasing and lies below n. */
  ghost predicate PlacedBelow(st: ScanState, n: nat)
  {
    Increasing(Placed(st)) && forall p :: 0 <= p < |Placed(st)| ==> Placed(st)[p] < n
  }

  lemma ScanOrdered(vals: seq<Option<real>>, cutoff: real, n: nat)
    requires n <= |vals|
    ensures PlacedBelow(ScanPrefix(vals, cutoff, n), n)
  {
    forall st: ScanState, i: nat | PlacedBelow(st, i)
      ensures PlacedBelow(Step(vals, cutoff, st, i), i + 1)
    {
      OrderedStep(vals, cutoff, st, i);
    }
    ScanInduction(vals, cutoff, (st: ScanState, i: nat) => PlacedBelow(st, i), 0, n);
  }

  /** A step keeps every placed qualifying position placed, and places position i if it qualifies. */
  lemma CoversStep(vals: seq<Option<real>>, cutoff: real, st: ScanState, i: nat)
    requires cutoff > 0.0 && i < |vals|
    requires forall x :: 0 <= x < i && Qualifies(vals[x], cutoff) ==> x in Placed(st)
    ensures forall x :: 0 <= x < i + 1 && Qualifies(vals[x], cutoff) ==> x in Placed(Step(vals, cutoff, st, i))
  {
    var st' := Step(vals, cutoff, st, i);
    var v := vals[i];
    if Qualifies(v, cutoff) && !(st.current == [] || st.gaps <= 2) {
      var t := Trim(vals, st.current, cutoff);
      FlattenSnoc(st.closed, t);
      assert Placed(st') == Flatten(st.closed) + t + [i];
      forall x | 0 <= x < i + 1 && Qualifies(vals[x], cutoff)
        ensures x in Placed(st')
      {
        if x < i && x !in Flatten(st.closed) {
          TrimKeepsQualifying(vals, st.current, cutoff, x);
        }
      }
    } else if Qualifies(v, cutoff) || (v.Some? && st.collecting) {
      assert Placed(st') == Placed(st) + [i];
    } else {
      assert Placed(st') == Placed(st);
    }
  }

  lemma {:induction false} ScanCovers(vals: seq<Option<real>>, cutoff: real, n: nat)
    requires cutoff > 0.0 && n <= |vals|
    ensures forall x :: 0 <= x < n && Qualifies(vals[x], cutoff) ==> x in Placed(ScanPrefix(vals, cutoff, n))
  {
    if n > 0 {
      ScanCovers(vals, cutoff, n - 1);
      CoversStep(vals, cutoff, ScanPrefix(vals, cutoff, n - 1), n - 1);
    }
  }

  // ---------------------------------------------------------------- the emitted groups

  /**
   * The groups the scan emits are disjoint, each lists its positions in run
   * order, and every group lies wholly before the next.
   */
  lemma IndexGroupsOrdered(vals: seq<Option<real>>, cutoff: real)
    ensures Increasing(Flatten(IndexGroups(vals, cutoff)))
  {
    var st := ScanPrefix(vals, cutoff, |vals|);
    ScanOrdered(vals, cutoff, |vals|);
    if st.current != [] {
      var t := Trim(vals, st.current, cutoff);
      PlacedAfterClose(st, t);
      IncreasingPrefix(Placed(st), |Flatten(st.closed)| + |t|);
    } else {
      assert Flatten(st.closed) == Placed(st);
    }
  }

  /**
   * With a positive cutoff every emitted group is non-empty, starts and ends
   * on a value at or above the cutoff, has at most two values below it and
   * no missing value.
   */
  lemma IndexGroupsGood(vals: seq<Option<real>>, cutoff: real)
    requires cutoff > 0.0
    ensures AllGood(vals, cutoff, IndexGroups(vals, cutoff))
  {
    var st := ScanPrefix(vals, cutoff, |vals|);
    ScanClosedGood(vals, cutoff, |vals|);
    if st.current != [] {
      ScanOpenShape(vals, cutoff, |vals|);
      CloseGood(vals, cutoff, st);
      GoodSnoc(vals, cutoff, st.closed, Trim(vals, st.current, cutoff));
    }
  }

  /** With a positive cutoff every value at or above the cutoff lands in an emitted group. */
  lemma IndexGroupsCover(vals: seq<Option<real>>, cutoff: real)
    requires cutoff > 0.0
    ensures forall x :: 0 <= x < |vals| && Qualifies(vals[x], cutoff) ==> x in Flatten(IndexGroups(vals, cutoff))
  {
    var st := ScanPrefix(vals, cutoff, |vals|);
    ScanCovers(vals, cutoff, |vals|);
    if st.current != [] {
      var t := Trim(vals, st.current, cutoff);
      FlattenSnoc(st.closed, t);
      forall x | 0 <= x < |vals| && Qualifies(vals[x], cutoff)
        ensures x in Flatten(IndexGroups(vals, cutoff))
      {
        if x !in Flatten(st.closed) {
          TrimKeepsQualifying(vals, st.current, cutoff, x);
        }
      }
    }
  }

  /**
   * With a positive cutoff each value at or above the cutoff lies in exactly
   * one emitted group, at exactly one place.
   */
  lemma IndexGroupsPartition(vals: seq<Option<real>>, cutoff: real, x: nat)
    requires cutoff > 0.0 && x < |vals| && Qualifies(vals[x], cutoff)
    ensures var gs := IndexGroups(vals, cutoff);
            && (exists k, j :: 0 <= k < |gs| && 0 <= j < |gs[k]| && gs[k][j] == x)
            && (forall k1, k2, j1, j2 ::
                  0 <= k1 < |gs| && 0 <= k2 < |gs| && 0 <= j1 < |gs[k1]| && 0 <= j2 < |gs[k2]|
                  && gs[k1][j1] == x && gs[k2][j2] == x
                  ==> k1 == k2 && j1 == j2)
  {
    var gs := IndexGroups(vals, cutoff);
    IndexGroupsCover(vals, cutoff);
    FlattenMember(gs, x);
    IndexGroupsOrdered(vals, cutoff);
    IncreasingFlattenOrdered(gs);
  }

  /** With a positive cutoff no emitted group holds a position whose value is missing. */
  lemma IndexGroupsNoMissing(vals: seq<Option<real>>, cutoff: real)
    requires cutoff > 0.0
    ensures var gs := IndexGroups(vals, cutoff);
            forall k, j :: 0 <= k < |gs| && 0 <= j < |gs[k]| ==> gs[k][j] < |vals| && vals[gs[k][j]].Some?
  {
    var gs := IndexGroups(vals, cutoff);
    IndexGroupsGood(vals, cutoff);
    forall k, j | 0 <= k < |gs| && 0 <= j < |gs[k]|
      ensures gs[k][j] < |vals| && vals[gs[k][j]].Some?
    {
      assert GoodGroup(vals, cutoff, gs[k]);
      assert ValueAt(vals, gs[k][j]).Some?;
    }
  }

  // ---------------------------------------------------------------- missing values

  /**
   * A missing value neither joins nor splits the open group: it only stops
   * collecting, so the next value below the cutoff is not added.
   */
  lemma MissingValueStep(vals: seq<Option<real>>, cutoff: real, st: ScanState, i: nat)
    requires cutoff > -1.0 && i < |vals| && vals[i].None?
    ensures Step(vals, cutoff, st, i) == st.(collecting := false)
  {
  }

  /** A step never brings back a position that is not placed and lies before it. */
  lemma AbsentStays(vals: seq<Option<real>>, cutoff: real, st: ScanState, j: nat, x: nat)
    requires x < j && x !in Placed(st)
    ensures x !in Placed(Step(vals, cutoff, st, j))
  {
    var v := ValueAt(vals, j);
    if Qualifies(v, cutoff) && !(st.current == [] || st.gaps <= 2) {
      var t := Trim(vals, st.current, cutoff);
      PlacedAfterClose(st, t);
      assert Placed(Step(vals, cutoff, st, j)) == Placed(st)[..|Flatten(st.closed)| + |t|] + [j];
    } else if Qualifies(v, cutoff) || (v.Some? && st.collecting) {
      assert Placed(Step(vals, cutoff, st, j)) == Placed(st) + [j];
    }
  }

  /**
   * An interval below the cutoff that the scan meets while not collecting
   * (or whose value is missing) is skipped, and no emitted group holds it.
   */
  lemma SkippedInNoGroup(vals: seq<Option<real>>, cutoff: real, i: nat)
    requires i < |vals| && !Qualifies(vals[i], cutoff)
    requires !(vals[i].Some? && ScanPrefix(vals, cutoff, i).collecting)
    ensures i !in Flatten(IndexGroups(vals, cutoff))
  {
    var st := ScanPrefix(vals, cutoff, i);
    ScanOrdered(vals, cutoff, i);
    assert i !in Placed(st);
    assert ScanPrefix(vals, cutoff, i + 1) == st.(collecting := false);
    forall st': ScanState, j: nat | i + 1 <= j < |vals| && i !in Placed(st')
      ensures i !in Placed(Step(vals, cutoff, st', j))
    {
      AbsentStays(vals, cutoff, st', j, i);
    }
    ScanInduction(vals, cutoff, (st': ScanState, k: nat) => i !in Placed(st'), i + 1, |vals|);
    var last := ScanPrefix(vals, cutoff, |vals|);
    if last.current != [] {
      PlacedAfterClose(last, Trim(vals, last.current, cutoff));
    } else {
      assert Flatten(last.closed) == Placed(last);
    }
  }

  /** Three values below a cutoff of 3 end the group; the next 5 starts a new one. */
  lemma ScanExampleThreeGaps()
    ensures IndexGroups([Some(5.0), Some(5.0), Some(0.0), Some(0.0), Some(0.0), Some(5.0)], 3.0) == [[0, 1], [5]]
  {
    var a := [Some(5.0), Some(5.0), Some(0.0), Some(0.0), Some(0.0), Some(5.0)];
    assert ScanPrefix(a, 3.0, 1) == ScanState([], [0], 0, true);
    assert ScanPrefix(a, 3.0, 2) == ScanState([], [0, 1], 0, true);
    assert ScanPrefix(a, 3.0, 3) == ScanState([], [0, 1, 2], 1, true);
    assert ScanPrefix(a, 3.0, 4) == ScanState([], [0, 1, 2, 3], 2, true);
    assert ScanPrefix(a, 3.0, 5) == ScanState([], [0, 1, 2, 3, 4], 3, true);
    var vs := ValuesAt(a, [0, 1, 2, 3, 4]);
    assert vs == [Some(5.0), Some(5.0), Some(0.0), Some(0.0), Some(0.0)];
    assert vs[..4][..3][..2] == [Some(5.0), Some(5.0)];
    assert KeptLength(vs, 3.0) == 2;
    assert Trim(a, [0, 1, 2, 3, 4], 3.0) == [0, 1];
    assert ScanPrefix(a, 3.0, 6) == ScanState([[0, 1]], [5], 0, true);
    assert ValuesAt(a, [5]) == [Some(5.0)];
    assert Trim(a, [5], 3.0) == [5];
  }

  /** Two values below the cutoff between two above it stay inside the group. */
  lemma ScanExampleTwoGaps()
    ensures IndexGroups([Some(5.0), Some(1.0), Some(1.0), Some(5.0)], 3.0) == [[0, 1, 2, 3]]
  {
    var b := [Some(5.0), Some(1.0), Some(1.0), Some(5.0)];
    assert ScanPrefix(b, 3.0, 1) == ScanState([], [0], 0, true);
    assert ScanPrefix(b, 3.0, 2) == ScanState([], [0, 1], 1, true);
    assert ScanPrefix(b, 3.0, 3) == ScanState([], [0, 1, 2], 2, true);
    assert ScanPrefix(b, 3.0, 4) == ScanState([], [0, 1, 2, 3], 2, true);
    assert ValuesAt(b, [0, 1, 2, 3]) == b;
    assert Trim(b, [0, 1, 2, 3], 3.0) == [0, 1, 2, 3];
  }

  /**
   * A missing value does not split the group: the value after it is skipped
   * because collecting stopped, and the next 5 joins the same group.
   */
  lemma ScanExampleMissing()
    ensures IndexGroups([Some(5.0), None, Some(1.0), Some(5.0)], 3.0) == [[0, 3]]
  {
    var c := [Some(5.0), None, Some(1.0), Some(5.0)];
    assert ScanPrefix(c, 3.0, 1) == ScanState([], [0], 0, true);
    assert ScanPrefix(c, 3.0, 2) == ScanState([], [0], 0, false);
    assert ScanPrefix(c, 3.0, 3) == ScanState([], [0], 0, false);
    assert ScanPrefix(c, 3.0, 4) == ScanState([], [0, 3], 0, true);
    assert ValuesAt(c, [0, 3]) == [Some(5.0), Some(5.0)];
    assert Trim(c, [0, 3], 3.0) == [0, 3];
  }

  /**
   * With a cutoff of 0 a single zero reading qualifies, but trimming drops it
   * (zero counts as below), leaving an empty group whose aggregation divides
   * by zero.
   */
  lemma ScanExampleZeroCutoff(run: seq<IntervalData>, assay: AssayType, cos: seq<AssayType>)
    requires |run| == 1 && run[0].GetAssay(assay) == Some(0.0)
    ensures IndexGroups(Values(run, assay), 0.0) == [[]]
    ensures InterceptsOf(CutoffGroups(run, assay, 0.0), assay, cos) == Failure(ZeroDivision)
  {
    var d := Values(run, assay);
    assert d == [Some(0.0)];
    assert ScanPrefix(d, 0.0, 1) == ScanState([], [0], 0, true);
    assert ValuesAt(d, [0]) == [Some(0.0)];
    assert KeptLength(ValuesAt(d, [0]), 0.0) == 0;
    var gs: seq<seq<IntervalData>> := [[]];
    assert CutoffGroups(run, assay, 0.0) == gs;
    assert gs[..0] == [];
  }
}
