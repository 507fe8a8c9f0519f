/**
 * Iteration over java.util.HashMap key sets and java.util.HashSet: the model
 * fixes no particular order, only that every element is visited exactly once.
 */
module JavaCollections {

  /** `q` visits every element of `s` exactly once. */
  predicate Enumerates(q: seq<string>, s: set<string>) {
    (forall i, j :: 0 <= i < j < |q| ==> q[i] != q[j]) &&
    (forall x :: x in q ==> x in s) && (forall x :: x in s ==> x in q)
  }

  /** The order in which a hash-based collection hands out its elements. */
  type Iteration = set<string> -> seq<string>

  /** Every set is iterated as some listing of exactly its elements. */
  ghost predicate ValidIteration(iter: Iteration) {
    forall s :: Enumerates(iter(s), s)
  }

  /** A listing without repeats is as long as the set it lists. */
  lemma {:induction false} EnumerationSize(q: seq<string>, s: set<string>)
    requires Enumerates(q, s)
    ensures |q| == |s|
  {
    if q != [] {
      var rest := s - {q[0]};
      assert Enumerates(q[1..], rest) by {
        forall x ensures x in q[1..] <==> x in rest {
          if x in q[1..] {
            var j :| 0 <= j < |q[1..]| && q[1..][j] == x;
            assert q[j + 1] == x;
          }
          if x in rest {
            var j :| 0 <= j < |q| && q[j] == x;
            assert j != 0;
            assert q[1..][j - 1] == x;
          }
        }
      }
      EnumerationSize(q[1..], rest);
    } else {
      assert forall x :: x !in s;
      assert s == {};
    }
  }
}
