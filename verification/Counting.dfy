/** Counting elements of a sequence: the driver's conservation laws are stated as
    "the number of places holding this slot is one or zero". */
module Counting {

  function One(b: bool): nat { if b then 1 else 0 }

  function Count<T>(s: seq<T>, p: T -> bool): nat {
    if s == [] then 0 else One(p(s[0])) + Count(s[1..], p)
  }

  /** The predicate "equal to x", named so that two mentions of it are the same function. */
  function Is<T(==)>(x: T): T -> bool { (y: T) => y == x }

  lemma {:induction false} CountConcat<T>(a: seq<T>, b: seq<T>, p: T -> bool)
    ensures Count(a + b, p) == Count(a, p) + Count(b, p)
  {
    if a == [] {
      assert a + b == b;
    } else {
      CountConcat(a[1..], b, p);
      assert (a + b)[1..] == a[1..] + b;
    }
  }

  lemma CountAppend<T>(a: seq<T>, x: T, p: T -> bool)
    ensures Count(a + [x], p) == Count(a, p) + One(p(x))
  {
    CountConcat(a, [x], p);
  }

  lemma CountSplit<T>(s: seq<T>, k: nat, p: T -> bool)
    requires k <= |s|
    ensures Count(s, p) == Count(s[..k], p) + Count(s[k..], p)
  {
    CountConcat(s[..k], s[k..], p);
    assert s == s[..k] + s[k..];
  }

  lemma CountInsert<T>(s: seq<T>, k: nat, x: T, p: T -> bool)
    requires k <= |s|
    ensures Count(s[..k] + [x] + s[k..], p) == Count(s, p) + One(p(x))
  {
    CountSplit(s, k, p);
    CountConcat(s[..k], [x], p);
    CountConcat(s[..k] + [x], s[k..], p);
  }

  lemma CountPop<T>(s: seq<T>, p: T -> bool)
    requires s != []
    ensures Count(s, p) == Count(s[..|s| - 1], p) + One(p(s[|s| - 1]))
  {
    CountSplit(s, |s| - 1, p);
    assert s[|s| - 1..] == [s[|s| - 1]];
  }

  lemma CountUpdate<T>(s: seq<T>, i: nat, x: T, p: T -> bool)
    requires i < |s|
    ensures Count(s[i := x], p) + One(p(s[i])) == Count(s, p) + One(p(x))
  {
    CountSplit(s, i, p);
    CountSplit(s[i := x], i, p);
    assert s[i := x][..i] == s[..i];
    assert s[i := x][i..][1..] == s[i..][1..];
  }

  lemma {:induction false} CountBounds<T>(s: seq<T>, p: T -> bool)
    ensures Count(s, p) <= |s|
  {
    if s != [] { CountBounds(s[1..], p); }
  }

  lemma {:induction false} CountMember<T>(s: seq<T>, i: nat, p: T -> bool)
    requires i < |s| && p(s[i])
    ensures Count(s, p) >= 1
  {
    if i > 0 { CountMember(s[1..], i - 1, p); }
  }

  lemma {:induction false} CountWitness<T>(s: seq<T>, p: T -> bool) returns (i: nat)
    requires Count(s, p) > 0
    ensures i < |s| && p(s[i])
  {
    if p(s[0]) {
      i := 0;
    } else {
      i := CountWitness(s[1..], p);
      i := i + 1;
    }
  }

  lemma {:induction false} CountImplies<T>(s: seq<T>, p: T -> bool, q: T -> bool)
    requires forall i | 0 <= i < |s| :: p(s[i]) ==> q(s[i])
    ensures Count(s, p) <= Count(s, q)
  {
    if s != [] {
      forall i | 0 <= i < |s[1..]| ensures p(s[1..][i]) ==> q(s[1..][i]) {
        assert s[1..][i] == s[i + 1];
      }
      CountImplies(s[1..], p, q);
    }
  }

  lemma {:induction false} CountNone<T>(s: seq<T>, p: T -> bool)
    requires forall i | 0 <= i < |s| :: !p(s[i])
    ensures Count(s, p) == 0
  {
    if s != [] {
      forall i | 0 <= i < |s[1..]| ensures !p(s[1..][i]) { assert s[1..][i] == s[i + 1]; }
      CountNone(s[1..], p);
    }
  }

  lemma {:induction false} CountAll<T>(s: seq<T>, p: T -> bool)
    requires forall i | 0 <= i < |s| :: p(s[i])
    ensures Count(s, p) == |s|
  {
    if s != [] {
      forall i | 0 <= i < |s[1..]| ensures p(s[1..][i]) { assert s[1..][i] == s[i + 1]; }
      CountAll(s[1..], p);
    }
  }
}
