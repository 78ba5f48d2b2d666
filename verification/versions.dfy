/**
 * System.Version as the registry query orders it. A version is taken already parsed:
 * Major and Minor always present, Build and Revision optional, every component non-negative.
 */
module Versions {

  /** A parsed version: two to four non-negative components. */
  type Version = v: seq<nat> | 2 <= |v| <= 4 witness [0, 0]

  /** The value System.Version keeps for field k: the component, or -1 when it was not given. */
  function Field(v: Version, k: nat): int
  {
    if k < |v| then v[k] else -1
  }

  function Sign(x: int, y: int): int
  {
    if x < y then -1 else if x > y then 1 else 0
  }

  /**
   * Version.CompareTo from field k on: the first of the remaining fields in which the versions
   * differ decides; when all four agree the versions compare equal.
   */
  function CompareFrom(a: Version, b: Version, k: nat): (r: int)
    requires k <= 4
    ensures -1 <= r <= 1
    decreases 4 - k
  {
    if k == 4 then 0
    else if Field(a, k) != Field(b, k) then Sign(Field(a, k), Field(b, k))
    else CompareFrom(a, b, k + 1)
  }

  /** Version.CompareTo: Major, Minor, Build and Revision in turn. */
  function CompareTo(a: Version, b: Version): (r: int)
    ensures -1 <= r <= 1
  {
    CompareFrom(a, b, 0)
  }

  /** From field k on, the comparison is zero exactly when every remaining field agrees. */
  lemma {:induction false} CompareFromZero(a: Version, b: Version, k: nat)
    requires k <= 4
    ensures CompareFrom(a, b, k) == 0 <==> forall j :: k <= j < 4 ==> Field(a, j) == Field(b, j)
    decreases 4 - k
  {
    if k < 4 && Field(a, k) == Field(b, k) {
      CompareFromZero(a, b, k + 1);
    }
  }

  /** Versions compare equal exactly when they are the same version (Version.Equals). */
  lemma CompareToZero(a: Version, b: Version)
    ensures CompareTo(a, b) == 0 <==> a == b
  {
    CompareFromZero(a, b, 0);
    if CompareTo(a, b) == 0 {
      assert Field(a, 2) == Field(b, 2) && Field(a, 3) == Field(b, 3);
      assert |a| == |b|;
      forall k | 0 <= k < |a|
        ensures a[k] == b[k]
      {
        assert Field(a, k) == Field(b, k);
      }
    }
  }

  /**
   * Reference order on component sequences: component by component, and a sequence that is
   * a proper prefix of another is the smaller one.
   */
  function Lex(a: seq<nat>, b: seq<nat>): int
    decreases |a|
  {
    if |a| == 0 then (if |b| == 0 then 0 else -1)
    else if |b| == 0 then 1
    else if a[0] != b[0] then Sign(a[0], b[0])
    else Lex(a[1..], b[1..])
  }

  /** Past the end of both versions every field is -1, so nothing is left to tell them apart. */
  lemma {:induction false} CompareFromBeyond(a: Version, b: Version, k: nat)
    requires |a| <= k <= 4 && |b| <= k
    ensures CompareFrom(a, b, k) == 0
    decreases 4 - k
  {
    if k < 4 {
      CompareFromBeyond(a, b, k + 1);
    }
  }

  /** From a field both versions have, CompareFrom is the lexicographic order of what remains. */
  lemma {:induction false} CompareFromIsLex(a: Version, b: Version, k: nat)
    requires k <= |a| && k <= |b|
    ensures CompareFrom(a, b, k) == Lex(a[k..], b[k..])
    decreases 4 - k
  {
    if k == |a| && k == |b| {
      CompareFromBeyond(a, b, k);
    } else if k < |a| && k < |b| {
      assert a[k..][1..] == a[k + 1..] && b[k..][1..] == b[k + 1..];
      if a[k] == b[k] {
        CompareFromIsLex(a, b, k + 1);
      }
    }
  }

  /** Version.CompareTo is exactly the prefix-is-smaller lexicographic order. */
  lemma CompareToIsLex(a: Version, b: Version)
    ensures CompareTo(a, b) == Lex(a, b)
  {
    CompareFromIsLex(a, b, 0);
    assert a[0..] == a && b[0..] == b;
  }

  /** From field k on, a version that agrees with another up to its own end is the older. */
  lemma {:induction false} PrefixFromIsOlder(a: Version, b: Version, k: nat)
    requires k <= |a| < |b| && a[k..] == b[k..|a|]
    ensures CompareFrom(a, b, k) == -1
    decreases 4 - k
  {
    if k < |a| {
      assert a[k] == a[k..][0] == b[k];
      assert a[k + 1..] == a[k..][1..] && b[k + 1..|a|] == b[k..|a|][1..];
      PrefixFromIsOlder(a, b, k + 1);
    }
  }

  /** A version given with fewer components than another it is a prefix of is older. */
  lemma PrefixIsOlder(a: Version, b: Version)
    requires |a| < |b| && a == b[..|a|]
    ensures CompareTo(a, b) == -1
  {
    assert a[0..] == a && b[0..|a|] == b[..|a|];
    PrefixFromIsOlder(a, b, 0);
  }

  /** Swapping the arguments reverses the comparison from any field on. */
  lemma {:induction false} CompareFromFlip(a: Version, b: Version, k: nat)
    requires k <= 4
    ensures CompareFrom(b, a, k) == -CompareFrom(a, b, k)
    decreases 4 - k
  {
    if k < 4 && Field(a, k) == Field(b, k) {
      CompareFromFlip(a, b, k + 1);
    }
  }

  /** CompareTo reverses when its arguments are swapped. */
  lemma CompareToFlip(a: Version, b: Version)
    ensures CompareTo(b, a) == -CompareTo(a, b)
  {
    CompareFromFlip(a, b, 0);
  }

  /** Transitivity from any field on. */
  lemma {:induction false} CompareFromTransitive(a: Version, b: Version, c: Version, k: nat)
    requires k <= 4
    requires CompareFrom(a, b, k) <= 0 && CompareFrom(b, c, k) <= 0
    ensures CompareFrom(a, c, k) <= 0
    ensures CompareFrom(a, b, k) < 0 || CompareFrom(b, c, k) < 0 ==> CompareFrom(a, c, k) < 0
    decreases 4 - k
  {
    if k < 4 && Field(a, k) == Field(b, k) && Field(b, k) == Field(c, k) {
      CompareFromTransitive(a, b, c, k + 1);
    }
  }

  /** "Not newer than" is transitive, and strictly so when either step is strict. */
  lemma CompareToTransitive(a: Version, b: Version, c: Version)
    requires CompareTo(a, b) <= 0 && CompareTo(b, c) <= 0
    ensures CompareTo(a, c) <= 0
    ensures CompareTo(a, b) < 0 || CompareTo(b, c) < 0 ==> CompareTo(a, c) < 0
  {
    CompareFromTransitive(a, b, c, 0);
  }
}
