/** Weighted sums over a sequence, used for head counts and termination measures. */
module Tally {
  function Sum<T>(s: seq<T>, w: T -> nat): (total: nat)
  {
    if s == [] then 0 else w(s[0]) + Sum(s[1..], w)
  }

  lemma {:induction false} Update<T>(s: seq<T>, w: T -> nat, i: nat, x: T)
    requires i < |s|
    ensures Sum(s[i := x], w) + w(s[i]) == Sum(s, w) + w(x)
  {
    if i == 0 {
      assert s[i := x][1..] == s[1..];
    } else {
      assert s[i := x][1..] == s[1..][i - 1 := x];
      Update(s[1..], w, i - 1, x);
    }
  }

  lemma {:induction false} Member<T>(s: seq<T>, w: T -> nat, i: nat)
    requires i < |s|
    ensures w(s[i]) <= Sum(s, w)
  {
    if i > 0 {
      Member(s[1..], w, i - 1);
    }
  }

  lemma {:induction false} Bounded<T>(s: seq<T>, w: T -> nat, b: nat)
    requires forall i :: 0 <= i < |s| ==> w(s[i]) <= b
    ensures Sum(s, w) <= b * |s|
  {
    if s != [] {
      Bounded(s[1..], w, b);
    }
  }

  lemma {:induction false} Uniform<T>(s: seq<T>, w: T -> nat, b: nat)
    requires forall i :: 0 <= i < |s| ==> w(s[i]) == b
    ensures Sum(s, w) == b * |s|
  {
    if s != [] {
      Uniform(s[1..], w, b);
    }
  }

  lemma {:induction false} Compare<T>(s: seq<T>, t: seq<T>, w: T -> nat, b: nat)
    requires |s| == |t| && forall i :: 0 <= i < |s| ==> w(t[i]) <= w(s[i]) + b
    ensures Sum(t, w) <= Sum(s, w) + b * |s|
  {
    if s != [] {
      Compare(s[1..], t[1..], w, b);
    }
  }

  lemma {:induction false} Append<T>(s: seq<T>, w: T -> nat, x: T)
    ensures Sum(s + [x], w) == Sum(s, w) + w(x)
  {
    if s == [] {
      assert [x][1..] == [];
    } else {
      assert (s + [x])[1..] == s[1..] + [x];
      Append(s[1..], w, x);
    }
  }
}
