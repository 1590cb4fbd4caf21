/** Python's `sorted` on strings, over collections without repeats (a
    set, or the entries of one directory): the ascending code-point order
    of `Text.LexLe`. */
module Sorting {
  import opened Text

  predicate Below(a: string, b: string) {
    LexLe(a, b) && a != b
  }

  /** Strictly ascending: every element below every later one. */
  predicate Ascending(xs: seq<string>) {
    forall i, j :: 0 <= i < j < |xs| ==> Below(xs[i], xs[j])
  }

  lemma BelowTrans(a: string, b: string, c: string)
    requires Below(a, b) && Below(b, c)
    ensures Below(a, c)
  {
    LexLeTrans(a, b, c);
    if a == c {
      LexLeAntisym(a, b);
    }
  }

  lemma BelowAsym(a: string, b: string)
    ensures !(Below(a, b) && Below(b, a))
  {
    if LexLe(a, b) && LexLe(b, a) {
      LexLeAntisym(a, b);
    }
  }

  lemma NotBelow(a: string, b: string)
    requires !Below(a, b) && a != b
    ensures Below(b, a)
  {
    LexLeTotal(a, b);
  }

  /** One step of an insertion sort that drops a repeat. */
  function Insert(x: string, xs: seq<string>): (r: seq<string>)
    requires Ascending(xs)
    ensures Ascending(r)
    ensures forall y :: y in r <==> y == x || y in xs
    ensures r != [] && (r[0] == x || (xs != [] && r[0] == xs[0]))
  {
    if xs == [] then [x]
    else if x == xs[0] then xs
    else if Below(x, xs[0]) then
      var r := [x] + xs;
      assert forall j :: 0 < j < |r| ==> Below(x, r[j]) by {
        forall j | 0 < j < |r| ensures Below(x, r[j]) {
          if j > 1 {
            BelowTrans(x, xs[0], xs[j - 1]);
          }
        }
      }
      r
    else
      NotBelow(x, xs[0]);
      var tail := xs[1..];
      assert Ascending(tail) by {
        forall i, j | 0 <= i < j < |tail| ensures Below(tail[i], tail[j]) {
          assert tail[i] == xs[i + 1] && tail[j] == xs[j + 1];
        }
      }
      var rest := Insert(x, tail);
      var r := [xs[0]] + rest;
      assert forall j :: 0 <= j < |rest| ==> Below(xs[0], rest[j]) by {
        forall j | 0 <= j < |rest| ensures Below(xs[0], rest[j]) {
          var y := rest[j];
          assert y in rest;
          if y != x {
            var k :| 0 <= k < |tail| && tail[k] == y;
            assert xs[k + 1] == y;
          }
        }
      }
      assert Ascending(r) by {
        forall i, j | 0 <= i < j < |r| ensures Below(r[i], r[j]) {
          if i > 0 {
            assert r[i] == rest[i - 1] && r[j] == rest[j - 1];
          } else {
            assert r[j] == rest[j - 1];
          }
        }
      }
      assert forall y :: y in xs <==> y == xs[0] || y in tail by {
        assert xs == [xs[0]] + tail;
      }
      r
  }

  /** `sorted(set(xs))`: the distinct elements of `xs`, ascending. */
  function SortDistinct(xs: seq<string>): (r: seq<string>)
    ensures Ascending(r)
    ensures forall y :: y in r <==> y in xs
  {
    if xs == [] then []
    else
      var front := xs[..|xs| - 1];
      assert xs == front + [xs[|xs| - 1]];
      Insert(xs[|xs| - 1], SortDistinct(front))
  }

  /** A strictly ascending sequence is determined by its elements: the
      order `sorted` produces is the only one with that property. */
  lemma {:induction false} AscendingUnique(a: seq<string>, b: seq<string>)
    requires Ascending(a) && Ascending(b)
    requires forall y :: y in a <==> y in b
    ensures a == b
    decreases |a|
  {
    assert a != [] ==> a[0] in b;
    assert b != [] ==> b[0] in a;
    if a != [] && b != [] {
      var k :| 0 <= k < |b| && b[k] == a[0];
      var m :| 0 <= m < |a| && a[m] == b[0];
      if k > 0 {
        assert Below(b[0], a[0]);
        if m > 0 {
          BelowTrans(b[0], a[0], b[0]);
        }
      }
      assert a[0] == b[0];
      var ta, tb := a[1..], b[1..];
      assert Ascending(ta) by {
        forall i, j | 0 <= i < j < |ta| ensures Below(ta[i], ta[j]) {
          assert ta[i] == a[i + 1] && ta[j] == a[j + 1];
        }
      }
      assert Ascending(tb) by {
        forall i, j | 0 <= i < j < |tb| ensures Below(tb[i], tb[j]) {
          assert tb[i] == b[i + 1] && tb[j] == b[j + 1];
        }
      }
      forall y ensures y in ta <==> y in tb {
        if y in ta {
          var i :| 0 <= i < |ta| && ta[i] == y;
          assert Below(a[0], a[i + 1]);
          assert y in b && y != b[0];
          var j :| 0 <= j < |b| && b[j] == y;
          assert tb[j - 1] == y;
        }
        if y in tb {
          var j :| 0 <= j < |tb| && tb[j] == y;
          assert Below(b[0], b[j + 1]);
          assert y in a && y != a[0];
          var i :| 0 <= i < |a| && a[i] == y;
          assert ta[i - 1] == y;
        }
      }
      AscendingUnique(ta, tb);
      assert a == [a[0]] + ta && b == [b[0]] + tb;
    }
  }

  /** Sorting does not depend on the order or repeats of its input. */
  lemma SortDistinctSameElements(xs: seq<string>, ys: seq<string>)
    requires forall y :: y in xs <==> y in ys
    ensures SortDistinct(xs) == SortDistinct(ys)
  {
    AscendingUnique(SortDistinct(xs), SortDistinct(ys));
  }
}
