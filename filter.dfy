/**
 * Boolean-mask filtering of the survey table.
 *
 * A pandas mask such as `(df["Survey"] == survey) & (df["Area"] == area)` is a
 * conjunction of equality tests on categorical columns; `df[mask]` keeps the
 * rows where every test holds, in their original order. `Where` is that
 * operation, and the dashboard's three views are instances of it.
 */
module Filter {
  import opened Frame
  import opened Sequences

  /** One equality test of a mask: `df[field] == value`. */
  datatype Test = Eq(field: Field, value: string)

  /** The row passes every test of the mask (the tests are joined by `&`). */
  predicate Holds(r: Record, tests: seq<Test>)
  {
    forall k :: 0 <= k < |tests| ==> Get(r, tests[k].field) == tests[k].value
  }

  /** `df[mask]`: the rows that pass every test, in table order. */
  function Where(df: Table, tests: seq<Test>): (r: Table)
    ensures |r| <= |df|
    ensures forall i :: 0 <= i < |r| ==> Holds(r[i], tests)
  {
    if df == [] then []
    else if Holds(df[0], tests) then [df[0]] + Where(df[1..], tests)
    else Where(df[1..], tests)
  }

  /** A passing row occurs in `df[mask]` exactly as often as in `df`; any other row, never. */
  lemma {:induction false} WhereCounts(df: Table, tests: seq<Test>)
    ensures forall x :: multiset(Where(df, tests))[x] == if Holds(x, tests) then multiset(df)[x] else 0
  {
    if df != [] {
      WhereCounts(df[1..], tests);
      assert df == [df[0]] + df[1..];
    }
  }

  /** The mask of the full selection (state, survey and area). */
  function Selection(state: string, survey: string, area: string): seq<Test>
  {
    [Eq(State, state), Eq(Survey, survey), Eq(Area, area)]
  }

  lemma HoldsSelection(r: Record, state: string, survey: string, area: string)
    ensures Holds(r, Selection(state, survey, area)) <==> r.state == state && r.survey == survey && r.area == area
  {
    var t := Selection(state, survey, area);
    if r.state == state && r.survey == survey && r.area == area {
      forall k | 0 <= k < |t| ensures Get(r, t[k].field) == t[k].value {
        if k == 0 {} else if k == 1 {} else {}
      }
    } else {
      assert Get(r, t[0].field) == t[0].value ==> Get(r, t[1].field) == t[1].value ==> Get(r, t[2].field) != t[2].value;
    }
  }

  lemma HoldsPair(r: Record, f: Field, v: string, g: Field, w: string)
    ensures Holds(r, [Eq(f, v), Eq(g, w)]) <==> Get(r, f) == v && Get(r, g) == w
  {
    var t := [Eq(f, v), Eq(g, w)];
    if Get(r, f) == v && Get(r, g) == w {
      forall k | 0 <= k < |t| ensures Get(r, t[k].field) == t[k].value {
        if k == 0 {} else {}
      }
    } else {
      assert Get(r, t[0].field) == t[0].value ==> Get(r, t[1].field) != t[1].value;
    }
  }

  /** Joining two masks with `&` is the conjunction of their tests. */
  lemma HoldsConcat(r: Record, t1: seq<Test>, t2: seq<Test>)
    ensures Holds(r, t1 + t2) <==> Holds(r, t1) && Holds(r, t2)
  {
    var t := t1 + t2;
    if Holds(r, t1) && Holds(r, t2) {
      forall k | 0 <= k < |t| ensures Get(r, t[k].field) == t[k].value {
        if k < |t1| {
          assert t[k] == t1[k];
        } else {
          assert t[k] == t2[k - |t1|];
        }
      }
    }
    if Holds(r, t) {
      forall k | 0 <= k < |t1| ensures Get(r, t1[k].field) == t1[k].value {
        assert t[k] == t1[k];
      }
      forall k | 0 <= k < |t2| ensures Get(r, t2[k].field) == t2[k].value {
        assert t[|t1| + k] == t2[k];
      }
    }
  }

  /** Filtering keeps the surviving rows in their original relative order. */
  lemma {:induction false} WhereIsSubsequence(df: Table, tests: seq<Test>)
    ensures IsSubsequence(Where(df, tests), df)
  {
    if df != [] {
      var rest := Where(df[1..], tests);
      WhereIsSubsequence(df[1..], tests);
      if Holds(df[0], tests) {
        assert Where(df, tests) == [df[0]] + rest;
        assert ([df[0]] + rest)[1..] == rest;
      }
    }
  }

  /**
   * `Where` is the only order-preserving subsequence of `df` that keeps every
   * passing row and no other: any subsequence with those row counts is it.
   */
  lemma {:induction false} WhereIsTheOnly(df: Table, tests: seq<Test>, s: Table)
    requires IsSubsequence(s, df)
    requires forall x :: multiset(s)[x] == if Holds(x, tests) then multiset(df)[x] else 0
    ensures s == Where(df, tests)
  {
    if df == [] {
    } else {
      var d, rest := df[0], df[1..];
      assert df == [d] + rest;
      if Holds(d, tests) {
        assert multiset(s)[d] == multiset(rest)[d] + 1;
        if !(s[0] == d && IsSubsequence(s[1..], rest)) {
          SubsequenceMultiset(s, rest);
          assert false;
        }
        assert s == [d] + s[1..];
        forall x ensures multiset(s[1..])[x] == if Holds(x, tests) then multiset(rest)[x] else 0 {
          if x == d {
          } else {
            assert multiset(s)[x] == multiset(s[1..])[x];
          }
        }
        WhereIsTheOnly(rest, tests, s[1..]);
      } else {
        if s != [] && s[0] == d {
          assert false;
        }
        assert IsSubsequence(s, rest);
        forall x ensures multiset(s)[x] == if Holds(x, tests) then multiset(rest)[x] else 0 {
          if x != d {
            assert multiset(df)[x] == multiset(rest)[x];
          }
        }
        WhereIsTheOnly(rest, tests, s);
      }
    }
  }

  /** Filtering distributes over concatenation of tables. */
  lemma {:induction false} WhereAppend(a: Table, b: Table, tests: seq<Test>)
    ensures Where(a + b, tests) == Where(a, tests) + Where(b, tests)
  {
    if a != [] {
      var ab := a + b;
      assert ab[0] == a[0];
      assert ab[1..] == a[1..] + b;
      WhereAppend(a[1..], b, tests);
      var wa, wb := Where(a[1..], tests), Where(b, tests);
      if Holds(a[0], tests) {
        assert Where(ab, tests) == [a[0]] + (wa + wb);
        assert Where(a, tests) == [a[0]] + wa;
        assert [a[0]] + (wa + wb) == ([a[0]] + wa) + wb;
      } else {
        assert Where(ab, tests) == wa + wb;
        assert Where(a, tests) == wa;
      }
    } else {
      assert a + b == b;
    }
  }

  /** Two masks that agree on every row select the same rows. */
  lemma {:induction false} WhereCongruent(df: Table, t1: seq<Test>, t2: seq<Test>)
    requires forall r :: Holds(r, t1) <==> Holds(r, t2)
    ensures Where(df, t1) == Where(df, t2)
  {
    if df != [] {
      WhereCongruent(df[1..], t1, t2);
    }
  }

  /** Filtering a filtered table is filtering once with both masks joined by `&`. */
  lemma {:induction false} WhereWhere(df: Table, t1: seq<Test>, t2: seq<Test>)
    ensures Where(Where(df, t1), t2) == Where(df, t1 + t2)
  {
    if df != [] {
      HoldsConcat(df[0], t1, t2);
      WhereWhere(df[1..], t1, t2);
    }
  }

  /** `filtered_df`: the rows whose state, survey and area all equal the selection. */
  function FilteredDf(df: Table, state: string, survey: string, area: string): (r: Table)
    ensures |r| <= |df|
    ensures IsSubsequence(r, df)
    ensures forall i :: 0 <= i < |r| ==> r[i].state == state && r[i].survey == survey && r[i].area == area
    ensures forall x :: multiset(r)[x] ==
                          if x.state == state && x.survey == survey && x.area == area then multiset(df)[x] else 0
  {
    var t := Selection(state, survey, area);
    WhereIsSubsequence(df, t);
    WhereCounts(df, t);
    forall x ensures Holds(x, t) <==> x.state == state && x.survey == survey && x.area == area {
      HoldsSelection(x, state, survey, area);
    }
    Where(df, t)
  }

  /** `comparison_df`: the rows of the selected survey and area, whatever their state. */
  function ComparisonDf(df: Table, survey: string, area: string): (r: Table)
    ensures |r| <= |df|
    ensures IsSubsequence(r, df)
    ensures forall i :: 0 <= i < |r| ==> r[i].survey == survey && r[i].area == area
    ensures forall x :: multiset(r)[x] ==
                          if x.survey == survey && x.area == area then multiset(df)[x] else 0
  {
    var t := [Eq(Survey, survey), Eq(Area, area)];
    WhereIsSubsequence(df, t);
    WhereCounts(df, t);
    forall x ensures Holds(x, t) <==> x.survey == survey && x.area == area {
      HoldsPair(x, Survey, survey, Area, area);
    }
    Where(df, t)
  }

  /** `trend_df`: the rows of the selected state and area, from every survey. */
  function TrendDf(df: Table, state: string, area: string): (r: Table)
    ensures |r| <= |df|
    ensures IsSubsequence(r, df)
    ensures forall i :: 0 <= i < |r| ==> r[i].state == state && r[i].area == area
    ensures forall x :: multiset(r)[x] ==
                          if x.state == state && x.area == area then multiset(df)[x] else 0
  {
    var t := [Eq(State, state), Eq(Area, area)];
    WhereIsSubsequence(df, t);
    WhereCounts(df, t);
    forall x ensures Holds(x, t) <==> x.state == state && x.area == area {
      HoldsPair(x, State, state, Area, area);
    }
    Where(df, t)
  }

  /** Narrowing `comparison_df` to the selected state gives `filtered_df`. */
  lemma ComparisonThenState(df: Table, state: string, survey: string, area: string)
    ensures Where(ComparisonDf(df, survey, area), [Eq(State, state)]) == FilteredDf(df, state, survey, area)
  {
    var t := [Eq(Survey, survey), Eq(Area, area)];
    WhereWhere(df, t, [Eq(State, state)]);
    forall r ensures Holds(r, t + [Eq(State, state)]) <==> Holds(r, Selection(state, survey, area)) {
      HoldsConcat(r, t, [Eq(State, state)]);
      HoldsPair(r, Survey, survey, Area, area);
      HoldsSelection(r, state, survey, area);
      assert Holds(r, [Eq(State, state)]) <==> r.state == state by {
        assert [Eq(State, state)][0] == Eq(State, state);
      }
    }
    WhereCongruent(df, t + [Eq(State, state)], Selection(state, survey, area));
  }

  /** Narrowing `trend_df` to the selected survey gives `filtered_df`. */
  lemma TrendThenSurvey(df: Table, state: string, survey: string, area: string)
    ensures Where(TrendDf(df, state, area), [Eq(Survey, survey)]) == FilteredDf(df, state, survey, area)
  {
    var t := [Eq(State, state), Eq(Area, area)];
    WhereWhere(df, t, [Eq(Survey, survey)]);
    forall r ensures Holds(r, t + [Eq(Survey, survey)]) <==> Holds(r, Selection(state, survey, area)) {
      HoldsConcat(r, t, [Eq(Survey, survey)]);
      HoldsPair(r, State, state, Area, area);
      HoldsSelection(r, state, survey, area);
      assert Holds(r, [Eq(Survey, survey)]) <==> r.survey == survey by {
        assert [Eq(Survey, survey)][0] == Eq(Survey, survey);
      }
    }
    WhereCongruent(df, t + [Eq(Survey, survey)], Selection(state, survey, area));
  }

  /** `filtered_df` keeps rows in order out of `comparison_df` and out of `trend_df`. */
  lemma FilteredWithinPartialViews(df: Table, state: string, survey: string, area: string)
    ensures IsSubsequence(FilteredDf(df, state, survey, area), ComparisonDf(df, survey, area))
    ensures IsSubsequence(FilteredDf(df, state, survey, area), TrendDf(df, state, area))
  {
    ComparisonThenState(df, state, survey, area);
    WhereIsSubsequence(ComparisonDf(df, survey, area), [Eq(State, state)]);
    TrendThenSurvey(df, state, survey, area);
    WhereIsSubsequence(TrendDf(df, state, area), [Eq(Survey, survey)]);
  }

  /** Applying the full selection to `filtered_df` again changes nothing. */
  lemma FilteredIdempotent(df: Table, state: string, survey: string, area: string)
    ensures FilteredDf(FilteredDf(df, state, survey, area), state, survey, area) == FilteredDf(df, state, survey, area)
  {
    var t := Selection(state, survey, area);
    WhereWhere(df, t, t);
    forall r ensures Holds(r, t + t) <==> Holds(r, t) {
      HoldsConcat(r, t, t);
    }
    WhereCongruent(df, t + t, t);
  }
}
