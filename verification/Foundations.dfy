/** Small shared vocabulary: options, identifiers, instants, and facts about sequences of identifiers. */
module Foundations {

  datatype Option<+T> = None | Some(value: T)

  // A UUID. Only equality and the order of its canonical text matter to the code.
  type Id = nat

  // Milliseconds since the epoch, as in a JavaScript Date.
  type Instant = int

  // The largest revision a PostgreSQL integer column holds.
  const MAX_VERSION: nat := 2147483647

  predicate Distinct<T(==)>(s: seq<T>) {
    forall i, j :: 0 <= i < j < |s| ==> s[i] != s[j]
  }

  function ToSet<T>(s: seq<T>): set<T> {
    set x | x in s
  }

  /** The test `new Set(xs).size === xs.length` is exactly distinctness. */
  lemma {:induction false} SetSizeDecidesDistinct<T>(s: seq<T>)
    ensures |ToSet(s)| <= |s|
    ensures |ToSet(s)| == |s| <==> Distinct(s)
  {
    if s == [] {
      assert ToSet(s) == {};
    } else {
      var front, last := s[..|s| - 1], s[|s| - 1];
      SetSizeDecidesDistinct(front);
      assert s == front + [last];
      assert ToSet(s) == ToSet(front) + {last};
      if last in front {
        var k :| 0 <= k < |front| && front[k] == last;
        assert s[k] == s[|s| - 1];
        assert ToSet(s) == ToSet(front);
      } else {
        assert Distinct(front) ==> Distinct(s);
      }
    }
  }

  lemma AppendDistinct<T>(s: seq<T>, x: T)
    requires Distinct(s) && x !in s
    ensures Distinct(s + [x])
  {
  }
}
