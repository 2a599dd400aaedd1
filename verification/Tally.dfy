/** Counting the requests that are in a given kind of phase. */
module Tally {

  function Those<T>(phase: map<nat, T>, p: T -> bool): set<nat> {
    set id | id in phase && p(phase[id])
  }

  /** What one new or changed entry does to the count. */
  lemma EntryChanged<T>(phase: map<nat, T>, id: nat, v: T, p: T -> bool)
    ensures |Those(phase[id := v], p)| ==
            |Those(phase, p)| - (if id in phase && p(phase[id]) then 1 else 0) + (if p(v) then 1 else 0)
  {
    if p(v) {
      assert Those(phase[id := v], p) == Those(phase, p) + {id};
    } else {
      assert Those(phase[id := v], p) == Those(phase, p) - {id};
    }
  }

  lemma EntryRemoved<T>(phase: map<nat, T>, id: nat, p: T -> bool)
    requires id in phase
    ensures |Those(phase - {id}, p)| == |Those(phase, p)| - if p(phase[id]) then 1 else 0
  {
    assert Those(phase - {id}, p) == Those(phase, p) - {id};
  }

  /** Two kinds that exclude each other add up. */
  lemma KindsAdd<T>(phase: map<nat, T>, p: T -> bool, q: T -> bool, either: T -> bool)
    requires forall v :: either(v) <==> p(v) || q(v)
    requires forall v :: !(p(v) && q(v))
    ensures |Those(phase, either)| == |Those(phase, p)| + |Those(phase, q)|
  {
    assert Those(phase, either) == Those(phase, p) + Those(phase, q);
  }

  lemma {:induction false} SubsetFits(a: set<nat>, b: set<nat>)
    requires a <= b
    ensures |a| <= |b|
  {
    assert b == a + (b - a);
  }
}
