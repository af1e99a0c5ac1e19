/** Order-preserving de-duplication: what spreading a JavaScript `Set` built from a
    sequence gives back (elements in order of first insertion). */
module Collections {

  /** Each element once, in order of first appearance. */
  function Distinct<T(==)>(s: seq<T>): (r: seq<T>)
    ensures forall i :: 0 <= i < |r| ==> r[i] in s
    ensures forall i :: 0 <= i < |s| ==> s[i] in r
    ensures NoDuplicates(r)
    decreases |s|
  {
    if |s| == 0 then []
    else
      var d := Distinct(s[..|s| - 1]);
      if s[|s| - 1] in d then d else d + [s[|s| - 1]]
  }

  predicate NoDuplicates<T(==)>(s: seq<T>) {
    forall i, j :: 0 <= i < j < |s| ==> s[i] != s[j]
  }

  /** The position of the first occurrence of `x`. */
  function FirstIndex<T(==)>(s: seq<T>, x: T): (k: nat)
    requires x in s
    ensures k < |s| && s[k] == x
    ensures forall j :: 0 <= j < k ==> s[j] != x
    decreases |s|
  {
    if x in s[..|s| - 1] then FirstIndex(s[..|s| - 1], x) else |s| - 1
  }

  /** `Distinct` keeps exactly the elements of its input, each once, ordered by where
      they first appear. */
  lemma {:induction false} DistinctSpec<T>(s: seq<T>)
    ensures forall x :: x in Distinct(s) <==> x in s
    ensures NoDuplicates(Distinct(s))
    ensures forall i, j :: 0 <= i < j < |Distinct(s)| ==>
              FirstIndex(s, Distinct(s)[i]) < FirstIndex(s, Distinct(s)[j])
    decreases |s|
  {
    if |s| > 0 {
      var init, last := s[..|s| - 1], s[|s| - 1];
      var d := Distinct(init);
      DistinctSpec(init);
      assert s == init + [last];
      forall x | x in init ensures FirstIndex(s, x) == FirstIndex(init, x) {
        FirstIndexPrefix(init, last, x);
      }
      if last !in d {
        assert last !in init;
        assert FirstIndex(s, last) == |s| - 1;
      }
    }
  }

  lemma FirstIndexPrefix<T>(init: seq<T>, last: T, x: T)
    requires x in init
    ensures FirstIndex(init + [last], x) == FirstIndex(init, x)
  {
    assert (init + [last])[..|init|] == init;
  }

  /** A sequence without repetitions is its own de-duplication; so de-duplicating
      twice is de-duplicating once. */
  lemma {:induction false} DistinctOfDistinct<T>(s: seq<T>)
    requires NoDuplicates(s)
    ensures Distinct(s) == s
    decreases |s|
  {
    if |s| > 0 {
      var init := s[..|s| - 1];
      DistinctOfDistinct(init);
      assert s[|s| - 1] !in init;
      assert init + [s[|s| - 1]] == s;
    }
  }

  lemma DistinctIdempotent<T>(s: seq<T>)
    ensures Distinct(Distinct(s)) == Distinct(s)
  {
    DistinctSpec(s);
    DistinctOfDistinct(Distinct(s));
  }
}
