/**
 * The indicator drop-down: the table's integer and float columns
 * (`select_dtypes(include=["float64", "int64"])`), sorted by name (`sorted`).
 */
module Indicators {
  import opened Frame
  import opened Sequences

  /** The dtypes `select_dtypes` is asked to include. */
  predicate IsNumeric(t: DType)
  {
    t == Int64 || t == Float64
  }

  /** The schema's column names, in column order. */
  function Names(schema: seq<Column>): (names: seq<string>)
    ensures |names| == |schema|
    ensures forall i :: 0 <= i < |schema| ==> names[i] == schema[i].name
  {
    seq(|schema|, i requires 0 <= i < |schema| => schema[i].name)
  }

  /**
   * `numeric_columns`: the names of the int and float columns, each once, in
   * column order.
   */
  function NumericColumns(schema: seq<Column>): (names: seq<string>)
    ensures |names| <= |schema|
    ensures forall x :: x in names <==> exists c :: c in schema && c.name == x && IsNumeric(c.dtype)
    ensures IsSubsequence(names, Names(schema))
    ensures Distinct(Names(schema)) ==> Distinct(names)
  {
    if schema == [] then []
    else
      assert forall c :: c in schema <==> c == schema[0] || c in schema[1..];
      assert Names(schema)[1..] == Names(schema[1..]);
      var rest := NumericColumns(schema[1..]);
      var names := if IsNumeric(schema[0].dtype) then [schema[0].name] + rest else rest;
      assert IsNumeric(schema[0].dtype) ==> names[1..] == rest;
      assert IsSubsequence(names, Names(schema));
      if Distinct(Names(schema)) then
        SubsequenceDistinct(names, Names(schema));
        names
      else names
  }

  /** Python's `<=` on strings: lexicographic by code point, a prefix first. */
  predicate StrLeq(a: string, b: string)
  {
    if a == [] then true
    else if b == [] then false
    else if a[0] != b[0] then a[0] < b[0]
    else StrLeq(a[1..], b[1..])
  }

  lemma {:induction false} StrLeqReflexive(a: string)
    ensures StrLeq(a, a)
  {
    if a != [] { StrLeqReflexive(a[1..]); }
  }

  lemma {:induction false} StrLeqAntisymmetric(a: string, b: string)
    requires StrLeq(a, b) && StrLeq(b, a)
    ensures a == b
  {
    if a != [] && b != [] {
      StrLeqAntisymmetric(a[1..], b[1..]);
      assert a == [a[0]] + a[1..] && b == [b[0]] + b[1..];
    }
  }

  lemma {:induction false} StrLeqTransitive(a: string, b: string, c: string)
    requires StrLeq(a, b) && StrLeq(b, c)
    ensures StrLeq(a, c)
  {
    if a != [] && b != [] && c != [] && a[0] == b[0] && b[0] == c[0] {
      StrLeqTransitive(a[1..], b[1..], c[1..]);
    }
  }

  lemma {:induction false} StrLeqTotal(a: string, b: string)
    ensures StrLeq(a, b) || StrLeq(b, a)
  {
    if a != [] && b != [] && a[0] == b[0] {
      StrLeqTotal(a[1..], b[1..]);
    }
  }

  /** Ascending in Python's string order. */
  predicate Sorted(s: seq<string>)
  {
    forall i, j :: 0 <= i < j < |s| ==> StrLeq(s[i], s[j])
  }

  /** Inserts a name into a sorted list, before the first name it does not follow. */
  function Insert(x: string, s: seq<string>): (r: seq<string>)
    requires Sorted(s)
    ensures Sorted(r)
    ensures multiset(r) == multiset(s) + multiset{x}
  {
    if s == [] then [x]
    else if StrLeq(x, s[0]) then
      assert forall j :: 0 <= j < |s| ==> StrLeq(x, s[j]) by {
        forall j | 0 <= j < |s| ensures StrLeq(x, s[j]) {
          if j > 0 { StrLeqTransitive(x, s[0], s[j]); }
        }
      }
      assert s == [s[0]] + s[1..];
      [x] + s
    else
      var rest := Insert(x, s[1..]);
      StrLeqTotal(x, s[0]);
      assert s == [s[0]] + s[1..];
      assert forall y :: y in rest ==> StrLeq(s[0], y) by {
        forall y | y in rest ensures StrLeq(s[0], y) {
          assert y in multiset(rest);
        }
      }
      [s[0]] + rest
  }

  /** `sorted(names)`: insertion sort, as a pure function. */
  function Sort(names: seq<string>): (r: seq<string>)
    ensures Sorted(r)
    ensures multiset(r) == multiset(names)
  {
    if names == [] then []
    else
      assert names == [names[0]] + names[1..];
      Insert(names[0], Sort(names[1..]))
  }

  /** The head of a sorted list is at most each of its names. */
  lemma HeadIsLeast(a: seq<string>, x: string)
    requires Sorted(a) && x in a
    ensures StrLeq(a[0], x)
  {
    if a[0] == x { StrLeqReflexive(x); }
  }

  lemma SortedTail(a: seq<string>)
    requires a != [] && Sorted(a)
    ensures Sorted(a[1..])
  {
    forall i, j | 0 <= i < j < |a| - 1 ensures StrLeq(a[1..][i], a[1..][j]) {
      assert a[1..][i] == a[i + 1] && a[1..][j] == a[j + 1];
    }
  }

  lemma MultisetTail(a: seq<string>, b: seq<string>)
    requires a != [] && b != [] && a[0] == b[0]
    requires multiset(a) == multiset(b)
    ensures multiset(a[1..]) == multiset(b[1..])
  {
    assert a == [a[0]] + a[1..];
    assert b == [b[0]] + b[1..];
    forall x ensures multiset(a[1..])[x] == multiset(b[1..])[x] {
      assert multiset(a)[x] == multiset{a[0]}[x] + multiset(a[1..])[x];
      assert multiset(b)[x] == multiset{b[0]}[x] + multiset(b[1..])[x];
    }
  }

  /** Two sorted lists with the same names are the same list: `sorted` has one answer. */
  lemma {:induction false} SortedUnique(a: seq<string>, b: seq<string>)
    requires Sorted(a) && Sorted(b)
    requires multiset(a) == multiset(b)
    ensures a == b
  {
    assert |a| == |multiset(a)| == |multiset(b)| == |b|;
    if a != [] {
      assert a[0] in multiset(b) && b[0] in multiset(a);
      HeadIsLeast(a, b[0]);
      HeadIsLeast(b, a[0]);
      StrLeqAntisymmetric(a[0], b[0]);
      MultisetTail(a, b);
      SortedTail(a);
      SortedTail(b);
      SortedUnique(a[1..], b[1..]);
      assert a == [a[0]] + a[1..] && b == [b[0]] + b[1..];
    }
  }

  /** The options of the indicator drop-down, `sorted(numeric_columns)`. */
  function IndicatorOptions(schema: seq<Column>): (opts: seq<string>)
    ensures Sorted(opts)
    ensures multiset(opts) == multiset(NumericColumns(schema))
    ensures forall x :: x in opts <==> exists c :: c in schema && c.name == x && IsNumeric(c.dtype)
  {
    var names := NumericColumns(schema);
    var opts := Sort(names);
    assert forall x :: x in opts <==> x in names by {
      forall x ensures x in opts <==> x in names {
        assert x in opts <==> x in multiset(opts);
      }
    }
    opts
  }

  /** With distinct column names, the indicator drop-down lists no name twice. */
  lemma IndicatorOptionsDistinct(schema: seq<Column>)
    requires Distinct(Names(schema))
    ensures Distinct(IndicatorOptions(schema))
  {
    PermutationDistinct(NumericColumns(schema), IndicatorOptions(schema));
  }
}
