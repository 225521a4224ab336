/**
 * The order Python's `sorted` uses on `str` values: lexicographic comparison by
 * code point, where a proper prefix sorts before the longer string. Dafny's own
 * `<` on sequences means "proper prefix", so the order is written out here,
 * together with strictly sorted lists and the fact that a finite set of strings
 * has exactly one strictly sorted listing.
 */
module LexOrder {

  /** `a < b` on Python strings. */
  predicate Less(a: string, b: string)
    decreases |a|
  {
    if a == [] then b != []
    else if b == [] then false
    else if a[0] != b[0] then a[0] < b[0]
    else Less(a[1..], b[1..])
  }

  lemma {:induction false} LessIrreflexive(a: string)
    ensures !Less(a, a)
    decreases |a|
  {
    if a != [] {
      LessIrreflexive(a[1..]);
    }
  }

  lemma {:induction false} LessAsymmetric(a: string, b: string)
    requires Less(a, b)
    ensures !Less(b, a)
    decreases |a|
  {
    if a != [] && b != [] && a[0] == b[0] {
      LessAsymmetric(a[1..], b[1..]);
    }
  }

  lemma {:induction false} LessTransitive(a: string, b: string, c: string)
    requires Less(a, b) && Less(b, c)
    ensures Less(a, c)
    decreases |a|
  {
    if a != [] && a[0] == b[0] && b[0] == c[0] {
      LessTransitive(a[1..], b[1..], c[1..]);
    }
  }

  /** Any two different strings are ordered one way or the other. */
  lemma {:induction false} LessTotal(a: string, b: string)
    requires a != b
    ensures Less(a, b) || Less(b, a)
    decreases |a|
  {
    if a != [] && b != [] && a[0] == b[0] {
      assert a == [a[0]] + a[1..] && b == [b[0]] + b[1..];
      LessTotal(a[1..], b[1..]);
    }
  }

  /** The set of elements of a list (Python's `set(xs)`). */
  function Elems(s: seq<string>): set<string> {
    set x | x in s
  }

  /** Every element is smaller than every later one: sorted and free of duplicates. */
  predicate StrictlySorted(s: seq<string>) {
    forall i, j :: 0 <= i < j < |s| ==> Less(s[i], s[j])
  }

  /** `s` is `sorted(list(elems))`. */
  predicate IsSortedListOf(s: seq<string>, elems: set<string>) {
    StrictlySorted(s) && Elems(s) == elems
  }

  /** `m` is the smallest element of `s`. */
  predicate IsLeast(m: string, s: set<string>) {
    m in s && forall x :: x in s && x != m ==> Less(m, x)
  }

  /** Every non-empty finite set of strings has a least element. */
  lemma {:induction false} LeastExists(s: set<string>)
    requires s != {}
    ensures exists m :: IsLeast(m, s)
    decreases s
  {
    var x :| x in s;
    if s == {x} {
      assert IsLeast(x, s);
    } else {
      LeastExists(s - {x});
      var m :| IsLeast(m, s - {x});
      LessTotal(x, m);
      if Less(x, m) {
        forall y | y in s && y != x
          ensures Less(x, y)
        {
          if y != m {
            LessTransitive(x, m, y);
          }
        }
        assert IsLeast(x, s);
      } else {
        assert IsLeast(m, s);
      }
    }
  }

  /** A strictly sorted list has no duplicates: it has as many distinct elements as entries. */
  lemma {:induction false} StrictlySortedDistinct(s: seq<string>)
    requires StrictlySorted(s)
    ensures |Elems(s)| == |s|
  {
    if s != [] {
      HeadIsLeast(s);
      assert StrictlySorted(s[1..]);
      StrictlySortedDistinct(s[1..]);
    }
  }

  /** The head of a non-empty strictly sorted list is the least of its elements. */
  lemma HeadIsLeast(s: seq<string>)
    requires StrictlySorted(s) && s != []
    ensures IsLeast(s[0], Elems(s))
    ensures Elems(s[1..]) == Elems(s) - {s[0]}
  {
    assert s == [s[0]] + s[1..];
    forall x | x in s[1..]
      ensures x != s[0]
    {
      var k :| 0 <= k < |s[1..]| && s[1..][k] == x;
      assert Less(s[0], s[k + 1]);
      LessIrreflexive(s[0]);
    }
  }

  /** `sorted(list(elems))` is determined by `elems`: two strictly sorted listings of one set are equal. */
  lemma {:induction false} SortedListUnique(a: seq<string>, b: seq<string>, elems: set<string>)
    requires IsSortedListOf(a, elems) && IsSortedListOf(b, elems)
    ensures a == b
    decreases |a|
  {
    if a == [] {
      StrictlySortedDistinct(b);
    } else {
      assert a[0] in Elems(a);
      assert b != [];
      HeadIsLeast(a);
      HeadIsLeast(b);
      if a[0] != b[0] {
        assert Less(a[0], b[0]) && Less(b[0], a[0]);
        LessAsymmetric(a[0], b[0]);
        assert false;
      }
      assert StrictlySorted(a[1..]) && StrictlySorted(b[1..]);
      SortedListUnique(a[1..], b[1..], elems - {a[0]});
      assert a == [a[0]] + a[1..] && b == [b[0]] + b[1..];
    }
  }
}
