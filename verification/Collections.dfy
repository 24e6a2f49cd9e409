/** An option type, and facts about sequences and finite sets used throughout. */
module Collections {

  datatype Option<+T> = None | Some(value: T)

  /** One more element of a sequence. */
  lemma TakeNext<T>(s: seq<T>, i: nat)
    requires i < |s|
    ensures s[..i + 1] == s[..i] + [s[i]]
  {
  }

  lemma TakeAll<T>(s: seq<T>)
    ensures s[..|s|] == s
  {
  }

  ghost predicate Distinct<T>(s: seq<T>) {
    forall i, j | 0 <= i < j < |s| :: s[i] != s[j]
  }

  ghost function Elements<T>(s: seq<T>): set<T> { set x | x in s }

  lemma SubsetSize<T>(a: set<T>, b: set<T>)
    requires a <= b
    ensures |a| <= |b|
  {
    assert b == a + (b - a);
  }

  /** A sequence has at least as many positions as elements, and exactly as many when distinct. */
  lemma {:induction false} ElementsSize<T>(s: seq<T>)
    ensures |Elements(s)| <= |s|
    ensures Distinct(s) ==> |Elements(s)| == |s|
  {
    if s == [] {
      assert Elements(s) == {};
    } else {
      var front, last := s[..|s| - 1], s[|s| - 1];
      ElementsSize(front);
      assert s == front + [last];
      assert Elements(s) == Elements(front) + {last};
      if Distinct(s) {
        assert Distinct(front);
        assert last !in front;
      }
    }
  }

  lemma ElementsIn<T>(a: seq<T>, b: seq<T>)
    requires Distinct(a) && forall x | x in a :: x in b
    ensures |a| <= |b|
  {
    ElementsSize(a);
    ElementsSize(b);
    SubsetSize(Elements(a), Elements(b));
  }
}
