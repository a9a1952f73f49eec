/**
 * The sidebar's option lists: `df[column].unique()` for the state, survey and
 * area columns.
 */
module Selectors {
  import opened Frame
  import opened Sequences

  /** `Series.unique()`: each value once, in the order of its first appearance. */
  function Unique<T(==,!new)>(s: seq<T>): (u: seq<T>)
    ensures Distinct(u)
    ensures forall x :: x in u <==> x in s
  {
    if s == [] then []
    else
      var init, last := s[..|s| - 1], s[|s| - 1];
      assert s == init + [last];
      var u := Unique(init);
      if last in u then u else u + [last]
  }

  /** The values of `Unique(s)` are listed in the order they first occur in `s`. */
  lemma {:induction false} UniqueFirstAppearance<T(!new)>(s: seq<T>)
    ensures forall i, j :: 0 <= i < j < |Unique(s)| ==> FirstIndex(s, Unique(s)[i]) < FirstIndex(s, Unique(s)[j])
  {
    if s != [] {
      var init, last := s[..|s| - 1], s[|s| - 1];
      assert s == init + [last];
      UniqueFirstAppearance(init);
      var u, v := Unique(init), Unique(s);
      forall x | x in init ensures FirstIndex(s, x) == FirstIndex(init, x) {
        assert s[FirstIndex(init, x)] == x;
      }
      if last !in u {
        assert v == u + [last];
        assert FirstIndex(s, last) == |s| - 1;
      }
    }
  }

  /** Any distinct list with the same values in first-appearance order is `Unique(s)`. */
  lemma UniqueIsTheOnly<T(!new)>(s: seq<T>, w: seq<T>)
    requires Distinct(w)
    requires forall x :: x in w <==> x in s
    requires forall i, j :: 0 <= i < j < |w| ==> FirstIndex(s, w[i]) < FirstIndex(s, w[j])
    ensures w == Unique(s)
  {
    UniqueFirstAppearance(s);
    SameValuesSameOrder(s, w, Unique(s));
  }

  /** Two repeat-free lists of values of `s`, both ordered by first index, with the same values, are equal. */
  lemma {:induction false} SameValuesSameOrder<T>(s: seq<T>, w: seq<T>, u: seq<T>)
    requires Distinct(w) && Distinct(u)
    requires forall x :: x in w ==> x in s
    requires forall x :: x in w <==> x in u
    requires forall i, j :: 0 <= i < j < |w| ==> FirstIndex(s, w[i]) < FirstIndex(s, w[j])
    requires forall i, j :: 0 <= i < j < |u| ==> FirstIndex(s, u[i]) < FirstIndex(s, u[j])
    ensures w == u
  {
    if w != [] {
      assert w[0] in u;
      assert u != [];
      var i :| 0 <= i < |u| && u[i] == w[0];
      assert u[0] in w;
      var j :| 0 <= j < |w| && w[j] == u[0];
      assert w[0] == u[0];
      DistinctTail(w);
      DistinctTail(u);
      forall x ensures x in w[1..] <==> x in u[1..] {
        assert x in w[1..] <==> x in w && x != w[0];
        assert x in u[1..] <==> x in u && x != u[0];
      }
      SameValuesSameOrder(s, w[1..], u[1..]);
      assert w == [w[0]] + w[1..];
      assert u == [u[0]] + u[1..];
    } else {
      EmptyWhenNoMembers(u);
    }
  }

  /** The option list of a categorical column. */
  function Options(df: Table, f: Field): (opts: seq<string>)
    ensures Distinct(opts)
    ensures forall x :: x in opts <==> exists i :: 0 <= i < |df| && Get(df[i], f) == x
  {
    var c := ColumnOf(df, f);
    assert forall x :: x in c <==> exists i :: 0 <= i < |df| && Get(df[i], f) == x by {
      forall x ensures x in c <==> exists i :: 0 <= i < |df| && Get(df[i], f) == x {
        if x in c {
          var i :| 0 <= i < |c| && c[i] == x;
        }
      }
    }
    Unique(c)
  }
}
