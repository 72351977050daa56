/** Generic sequence vocabulary shared by the catalog and the cart: the
    JavaScript array operations the components use (`filter`, and the
    map-then-drop-null idiom), and the relations used to state what they keep.
 */
module Sequences {

  /** An optional value; `None` plays the part of JavaScript's `null`. */
  datatype Option<+T> = None | Some(value: T)

  /** `sub` is `s` with some elements deleted and the rest kept in order. */
  ghost predicate IsSubsequence<T>(sub: seq<T>, s: seq<T>)
    decreases |s|
  {
    if |sub| == 0 then true
    else if |s| == 0 then false
    else (sub[0] == s[0] && IsSubsequence(sub[1..], s[1..])) || IsSubsequence(sub, s[1..])
  }

  /** No value occurs twice in `s`. */
  ghost predicate Distinct<T>(s: seq<T>) {
    forall i, j :: 0 <= i < j < |s| ==> s[i] != s[j]
  }

  /** Every sequence is a subsequence of itself. */
  lemma {:induction false} SubsequenceOfItself<T>(s: seq<T>)
    ensures IsSubsequence(s, s)
  {
    if |s| > 0 {
      SubsequenceOfItself(s[1..]);
    }
  }

  /** `Array.prototype.filter`: the elements of `s` that `keep` accepts, in order. */
  function Filter<T(!new)>(s: seq<T>, keep: T -> bool): (r: seq<T>)
    ensures |r| <= |s|
    ensures forall i :: 0 <= i < |r| ==> keep(r[i])
    ensures IsSubsequence(r, s)
  {
    if |s| == 0 then []
    else
      if keep(s[0]) then [s[0]] + Filter(s[1..], keep) else Filter(s[1..], keep)
  }

  /** The values of the `Some` entries of `s`, in order: `filter(x => x !== null)`. */
  function Somes<T(!new)>(s: seq<Option<T>>): (r: seq<T>)
    ensures |r| <= |s|
    ensures forall x :: x in r <==> Some(x) in s
  {
    if |s| == 0 then []
    else
      assert s == [s[0]] + s[1..];
      (if s[0].Some? then [s[0].value] else []) + Somes(s[1..])
  }

  /** Dropping the `None`s keeps every copy of every value. */
  lemma {:induction false} SomesMultiset<T(!new)>(s: seq<Option<T>>)
    ensures forall x :: multiset(Somes(s))[x] == multiset(s)[Some(x)]
  {
    if |s| > 0 {
      SomesMultiset(s[1..]);
      assert s == [s[0]] + s[1..];
    }
  }

  /** Dropping the `None`s works piecewise, so the values keep their order. */
  lemma {:induction false} SomesAppend<T(!new)>(a: seq<Option<T>>, b: seq<Option<T>>)
    ensures Somes(a + b) == Somes(a) + Somes(b)
  {
    if |a| == 0 {
      assert a + b == b;
    } else {
      var head := if a[0].Some? then [a[0].value] else [];
      assert (a + b)[0] == a[0];
      assert (a + b)[1..] == a[1..] + b;
      calc {
        Somes(a + b);
        head + Somes(a[1..] + b);
        { SomesAppend(a[1..], b); }
        head + (Somes(a[1..]) + Somes(b));
        (head + Somes(a[1..])) + Somes(b);
        Somes(a) + Somes(b);
      }
    }
  }

  /** Filtering keeps every copy of an accepted value and no copy of a
      rejected one. */
  lemma {:induction false} FilterMultiset<T(!new)>(s: seq<T>, keep: T -> bool)
    ensures forall x :: multiset(Filter(s, keep))[x] == if keep(x) then multiset(s)[x] else 0
  {
    if |s| > 0 {
      FilterMultiset(s[1..], keep);
      assert s == [s[0]] + s[1..];
    }
  }

  /** Filtering a sequence whose every element is accepted changes nothing. */
  lemma {:induction false} FilterAllKept<T(!new)>(s: seq<T>, keep: T -> bool)
    requires forall i :: 0 <= i < |s| ==> keep(s[i])
    ensures Filter(s, keep) == s
  {
    if |s| > 0 {
      FilterAllKept(s[1..], keep);
    }
  }

  /** Tests that agree on every value filter alike. */
  lemma {:induction false} FilterCongruent<T(!new)>(s: seq<T>, keep: T -> bool, keep': T -> bool)
    requires forall x :: keep(x) == keep'(x)
    ensures Filter(s, keep) == Filter(s, keep')
  {
    if |s| > 0 {
      FilterCongruent(s[1..], keep, keep');
    }
  }

  /** Filtering twice with the same test is filtering once. */
  lemma {:induction false} FilterIdempotent<T(!new)>(s: seq<T>, keep: T -> bool)
    ensures Filter(Filter(s, keep), keep) == Filter(s, keep)
  {
    FilterAllKept(Filter(s, keep), keep);
  }

  /** Filtering distributes over concatenation. */
  lemma {:induction false} FilterAppend<T(!new)>(a: seq<T>, b: seq<T>, keep: T -> bool)
    ensures Filter(a + b, keep) == Filter(a, keep) + Filter(b, keep)
  {
    if |a| == 0 {
      assert a + b == b;
    } else {
      assert (a + b)[0] == a[0];
      assert (a + b)[1..] == a[1..] + b;
      FilterAppend(a[1..], b, keep);
    }
  }

  /** A subsequence never holds more copies of a value than the sequence. */
  lemma {:induction false} SubsequenceMultiset<T>(sub: seq<T>, s: seq<T>)
    requires IsSubsequence(sub, s)
    ensures multiset(sub) <= multiset(s)
    decreases |s|
  {
    if |sub| == 0 {
    } else {
      assert s == [s[0]] + s[1..];
      if sub[0] == s[0] && IsSubsequence(sub[1..], s[1..]) {
        SubsequenceMultiset(sub[1..], s[1..]);
        assert sub == [sub[0]] + sub[1..];
      } else {
        SubsequenceMultiset(sub, s[1..]);
      }
    }
  }

  /** A subsequence of a sequence without repetitions has none either. */
  lemma {:induction false} SubsequenceDistinct<T>(sub: seq<T>, s: seq<T>)
    requires IsSubsequence(sub, s)
    requires Distinct(s)
    ensures Distinct(sub)
    decreases |s|
  {
    if |sub| == 0 {
    } else {
      assert Distinct(s[1..]) by {
        forall i, j | 0 <= i < j < |s[1..]|
          ensures s[1..][i] != s[1..][j]
        {
          assert s[1..][i] == s[i + 1] && s[1..][j] == s[j + 1];
        }
      }
      if sub[0] == s[0] && IsSubsequence(sub[1..], s[1..]) {
        SubsequenceDistinct(sub[1..], s[1..]);
        SubsequenceMultiset(sub[1..], s[1..]);
        forall j | 0 < j < |sub|
          ensures sub[0] != sub[j]
        {
          assert sub[j] == sub[1..][j - 1];
          assert sub[j] in multiset(sub[1..]);
          assert sub[j] in s[1..];
          var k :| 0 <= k < |s[1..]| && s[1..][k] == sub[j];
          assert s[k + 1] == sub[j];
        }
        forall i, j | 0 <= i < j < |sub|
          ensures sub[i] != sub[j]
        {
          if i > 0 {
            assert sub[i] == sub[1..][i - 1] && sub[j] == sub[1..][j - 1];
          }
        }
      } else {
        SubsequenceDistinct(sub, s[1..]);
      }
    }
  }

  /** `s` back to front. */
  function Reverse<T>(s: seq<T>): (r: seq<T>)
    ensures |r| == |s|
    ensures forall i :: 0 <= i < |s| ==> r[i] == s[|s| - 1 - i]
  {
    if |s| == 0 then [] else Reverse(s[1..]) + [s[0]]
  }

  /** Filtering a reversed sequence is reversing the filtered one. */
  lemma {:induction false} FilterReverse<T(!new)>(s: seq<T>, keep: T -> bool)
    ensures Filter(Reverse(s), keep) == Reverse(Filter(s, keep))
  {
    if |s| > 0 {
      FilterReverse(s[1..], keep);
      FilterAppend(Reverse(s[1..]), [s[0]], keep);
      assert Reverse(s) == Reverse(s[1..]) + [s[0]];
      if keep(s[0]) {
        var f := Filter(s, keep);
        assert f == [s[0]] + Filter(s[1..], keep);
        assert f[1..] == Filter(s[1..], keep);
      }
    }
  }
}
