/** `is_rotated` of bindings/python/rad_util.py. */
module Rotation {

  datatype Outcome = Answer(rotated: bool) | IndexError

  function Rotate<T>(a: seq<T>, k: nat): seq<T>
    requires k <= |a|
  {
    a[k..] + a[..k]
  }

  /** `b` is `a` read from some position on, wrapping around. */
  ghost predicate IsRotation<T>(a: seq<T>, b: seq<T>) {
    exists k: nat :: k <= |a| && b == Rotate(a, k)
  }

  /** Decides rotation of lists that may repeat items.  The head of the second list is read without
      a check, so two empty lists raise. */
  method IsRotated<T(==)>(seq1: seq<T>, seq2: seq<T>) returns (r: Outcome)
    ensures r.IndexError? <==> seq1 == [] && seq2 == []
    ensures r.Answer? ==> (r.rotated <==> IsRotation(seq1, seq2))
  {
    if |seq1| != |seq2| {
      return Answer(false);
    }
    if seq2 == [] {
      return IndexError;
    }
    var startIndexes: seq<nat> := [];
    var headItem := seq2[0];
    for index1 := 0 to |seq1|
      invariant forall j :: 0 <= j < |startIndexes| ==> startIndexes[j] < index1
      invariant forall k :: 0 <= k < index1 && seq1[k] == headItem ==>
                  exists j :: 0 <= j < |startIndexes| && startIndexes[j] == k
    {
      if seq1[index1] == headItem {
        ghost var before := startIndexes;
        startIndexes := startIndexes + [index1];
        assert startIndexes[|before|] == index1;
        assert forall j :: 0 <= j < |before| ==> startIndexes[j] == before[j];
      }
    }
    var doubleSeq1 := seq1 + seq1;
    for i := 0 to |startIndexes|
      invariant forall j :: 0 <= j < i ==> Rotate(seq1, startIndexes[j]) != seq2
    {
      var index1 := startIndexes[i];
      assert doubleSeq1[index1..index1 + |seq1|] == Rotate(seq1, index1);
      if doubleSeq1[index1..index1 + |seq1|] == seq2 {
        return Answer(true);
      }
    }
    RotationStart(seq1, seq2);
    return Answer(false);
  }

  /** A rotation of a non-empty list starts at a proper position holding its head. */
  lemma {:induction false} RotationStart<T>(a: seq<T>, b: seq<T>)
    requires a != [] && |a| == |b|
    ensures IsRotation(a, b) ==> exists k: nat :: k < |a| && a[k] == b[0] && b == Rotate(a, k)
  {
    if IsRotation(a, b) {
      var k: nat :| k <= |a| && b == Rotate(a, k);
      var k' := if k == |a| then 0 else k;
      assert b == Rotate(a, k') && a[k'] == b[0];
    }
  }

  lemma {:induction false} RotateTwice<T>(a: seq<T>, k: nat, m: nat)
    requires k <= |a| && m <= |a|
    ensures Rotate(Rotate(a, k), m) == Rotate(a, if k + m <= |a| then k + m else k + m - |a|)
  {
    if k + m <= |a| {
      assert Rotate(a, k)[m..] == a[k + m..] + a[..k];
      assert Rotate(a, k)[..m] == a[k..k + m];
      assert a[..k + m] == a[..k] + a[k..k + m];
    } else {
      var d := k + m - |a|;
      assert Rotate(a, k)[m..] == a[d..k];
      assert Rotate(a, k)[..m] == a[k..] + a[..d];
      assert a[d..] == a[d..k] + a[k..];
    }
  }

  /** Being a rotation is an equivalence: the dedup of `find_cycles` relies on it. */
  lemma {:induction false} RotationSymmetric<T>(a: seq<T>, b: seq<T>)
    requires IsRotation(a, b)
    ensures IsRotation(b, a)
  {
    var k: nat :| k <= |a| && b == Rotate(a, k);
    RotateTwice(a, k, |a| - k);
    assert Rotate(a, |a|) == a;
    assert a == Rotate(b, |a| - k);
  }

  lemma {:induction false} RotationTransitive<T>(a: seq<T>, b: seq<T>, c: seq<T>)
    requires IsRotation(a, b) && IsRotation(b, c)
    ensures IsRotation(a, c)
  {
    var k: nat :| k <= |a| && b == Rotate(a, k);
    var m: nat :| m <= |b| && c == Rotate(b, m);
    RotateTwice(a, k, m);
  }
}
