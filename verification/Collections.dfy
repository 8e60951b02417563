/** Small facts about sequences and sets, and a mark for the steps of runs, that several components share. */
module Collections {

  function Min(a: nat, b: nat): nat { if a < b then a else b }

  function Max(a: nat, b: nat): nat { if a < b then b else a }

  /** Marks the step of a run that a proof looks at. */
  predicate At(i: nat) { true }

  lemma PrefixAndSlice<X>(s: seq<X>, i: nat, k: nat)
    requires i <= k <= |s|
    ensures s[..i] + s[i..k] == s[..k]
    ensures i < k ==> s[i..k][..k - i - 1] == s[i..k - 1] && s[i..k][k - i - 1] == s[k - 1]
  {
  }

  predicate NoRepeats<T(==)>(s: seq<T>) {
    forall i, k :: 0 <= i < k < |s| ==> s[i] != s[k]
  }

  lemma {:induction false} SizeOfNoRepeats<T>(s: seq<T>)
    requires NoRepeats(s)
    ensures |set a | a in s| == |s|
  {
    if s != [] {
      SizeOfNoRepeats(s[1..]);
      assert s[0] !in s[1..];
      assert (set a | a in s) == {s[0]} + set a | a in s[1..];
    }
  }

  lemma {:induction false} SubsetCount<T>(a: set<T>, b: set<T>)
    requires a <= b
    ensures |a| <= |b| && (|a| == |b| ==> a == b)
  {
    if a != {} {
      var x :| x in a;
      SubsetCount(a - {x}, b - {x});
    }
  }
}
