/** Sequences without repetition, seen as sets. */
module Elements {
  function ElementsOf(q: seq<int>): set<int> {
    if q == [] then {} else {q[0]} + ElementsOf(q[1..])
  }

  predicate Distinct(q: seq<int>) {
    q == [] || (q[0] !in ElementsOf(q[1..]) && Distinct(q[1..]))
  }

  lemma {:induction false} ElementsSnoc(q: seq<int>, c: int)
    ensures ElementsOf(q + [c]) == ElementsOf(q) + {c}
    ensures Distinct(q + [c]) <==> Distinct(q) && c !in ElementsOf(q)
  {
    if q != [] {
      assert (q + [c])[1..] == q[1..] + [c];
      ElementsSnoc(q[1..], c);
    }
  }

  lemma {:induction false} ElementsCount(q: seq<int>)
    requires Distinct(q)
    ensures |ElementsOf(q)| == |q|
  {
    if q != [] {
      ElementsCount(q[1..]);
      assert |{q[0]} + ElementsOf(q[1..])| == 1 + |ElementsOf(q[1..])|;
    }
  }

  lemma {:induction false} ElementsAppend(a: seq<int>, b: seq<int>)
    ensures ElementsOf(a + b) == ElementsOf(a) + ElementsOf(b)
  {
    if a == [] {
      assert a + b == b;
    } else {
      assert (a + b)[1..] == a[1..] + b;
      ElementsAppend(a[1..], b);
    }
  }
}
