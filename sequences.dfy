/**
 * The one array built-in the resolvers rely on for their read queries:
 * `Array.prototype.filter` with a callback that may throw.
 */
module Sequences {

  import opened Wrappers

  /** `r` is obtained from `s` by deleting elements: it keeps the original order. */
  ghost predicate IsSubsequence<T>(r: seq<T>, s: seq<T>)
    decreases |s|
  {
    r == [] || (s != [] && ((r[0] == s[0] && IsSubsequence(r[1..], s[1..])) || IsSubsequence(r, s[1..])))
  }

  lemma {:induction false} SubsequenceOfItself<T>(s: seq<T>)
    ensures IsSubsequence(s, s)
  {
    if s != [] {
      SubsequenceOfItself(s[1..]);
    }
  }

  /** The positions of `s` whose element the callback keeps. */
  ghost function KeptPositions<T>(s: seq<T>, test: T -> Option<bool>): set<nat>
  {
    set i: nat | i < |s| && test(s[i]) == Some(true)
  }

  /**
   * `s.filter(test)`: the callback answers `Some(keep)`, or `None` when it throws
   * (a TypeError), in which case the whole call throws and yields `None`.
   */
  function FilterOrThrow<T(!new)>(s: seq<T>, test: T -> Option<bool>): (r: Option<seq<T>>)
    ensures r.None? <==> exists i :: 0 <= i < |s| && test(s[i]).None?
    ensures r.Some? ==> IsSubsequence(r.value, s) && |r.value| <= |s|
  {
    if s == [] then Some([])
    else
      match test(s[0])
      case None => None
      case Some(keep) =>
        match FilterOrThrow(s[1..], test)
        case None => None
        case Some(rest) =>
          Some(if keep then [s[0]] + rest else rest)
  }

  /** One step of the filter: the head's verdict, then the rest. */
  lemma FilterStep<T(!new)>(s: seq<T>, test: T -> Option<bool>)
    requires s != [] && test(s[0]).Some? && FilterOrThrow(s[1..], test).Some?
    ensures FilterOrThrow(s, test) ==
              Some(if test(s[0]).value then [s[0]] + FilterOrThrow(s[1..], test).value else FilterOrThrow(s[1..], test).value)
  {
  }

  /**
   * The filter keeps every occurrence of a kept element and nothing else; with
   * `IsSubsequence` this pins the result down to exactly the kept elements of `s`,
   * in their original order.
   */
  lemma {:induction false} FilterMultiplicity<T(!new)>(s: seq<T>, test: T -> Option<bool>, x: T)
    requires FilterOrThrow(s, test).Some?
    ensures multiset(FilterOrThrow(s, test).value)[x] == if test(x) == Some(true) then multiset(s)[x] else 0
    ensures x in FilterOrThrow(s, test).value <==> x in s && test(x) == Some(true)
  {
    if s != [] {
      FilterMultiplicity(s[1..], test, x);
      assert s == [s[0]] + s[1..];
    }
  }

  /** Filtering a concatenation filters each part and concatenates the results. */
  lemma {:induction false} FilterAppend<T(!new)>(a: seq<T>, b: seq<T>, test: T -> Option<bool>)
    ensures FilterOrThrow(a + b, test).Some? <==> FilterOrThrow(a, test).Some? && FilterOrThrow(b, test).Some?
    ensures FilterOrThrow(a + b, test).Some? ==>
              FilterOrThrow(a + b, test).value == FilterOrThrow(a, test).value + FilterOrThrow(b, test).value
  {
    if a == [] {
      assert a + b == b;
    } else {
      assert (a + b)[0] == a[0];
      assert (a + b)[1..] == a[1..] + b;
      FilterAppend(a[1..], b, test);
    }
  }

  /** When the callback never throws, the filter keeps exactly one element per kept position. */
  lemma {:induction false} FilterLength<T(!new)>(s: seq<T>, test: T -> Option<bool>)
    requires forall i :: 0 <= i < |s| ==> test(s[i]).Some?
    ensures FilterOrThrow(s, test).Some?
    ensures |FilterOrThrow(s, test).value| == |KeptPositions(s, test)|
  {
    if s == [] {
      assert KeptPositions(s, test) == {};
    } else {
      var n := |s| - 1;
      var init, last := s[..n], s[n];
      assert s == init + [last];
      FilterLength(init, test);
      FilterAppend(init, [last], test);
      assert [last][1..] == [];
      if test(last) == Some(true) {
        assert KeptPositions(s, test) == KeptPositions(init, test) + {n};
      } else {
        assert KeptPositions(s, test) == KeptPositions(init, test);
      }
    }
  }

}
