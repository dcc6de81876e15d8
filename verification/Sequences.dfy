// Facts about sequences that say nothing of what is in them.

module Sequences {
  lemma Associates<T>(a: seq<T>, b: seq<T>, c: seq<T>)
    ensures (a + b) + c == a + (b + c)
  {
  }

  lemma AssociatesThree<T>(a: seq<T>, b: seq<T>, c: seq<T>, d: seq<T>)
    ensures ((a + b) + c) + d == a + (b + (c + d))
  {
  }

  lemma AssociatesFour<T>(a: seq<T>, b: seq<T>, c: seq<T>, d: seq<T>)
    ensures ((a + b) + c) + d == a + ((b + c) + d)
  {
  }

  lemma AssociatesFive<T>(x: seq<T>, a: seq<T>, b: seq<T>, c: seq<T>, d: seq<T>, e: seq<T>)
    ensures ((((x + a) + b) + c) + d) + e == x + ((((a + b) + c) + d) + e)
  {
  }

  lemma OneMore<T>(s: seq<T>, n: nat)
    requires n < |s|
    ensures s[..n + 1] == s[..n] + [s[n]]
  {
  }

  lemma SliceOfPrefix<T>(whole: seq<T>, part: seq<T>, a: nat, b: nat)
    requires |part| <= |whole| && whole[..|part|] == part && a <= b <= |part|
    ensures whole[a..b] == part[a..b]
  {
    assert forall k | 0 <= k < |part| :: part[k] == whole[..|part|][k] == whole[k];
  }

  lemma SplitSame<T>(s: seq<T>, k: nat)
    requires k <= |s|
    ensures s[..k] + s[k..] == s
  {
  }

  lemma SplitFront<T>(a: seq<T>, b: seq<T>, n: nat)
    requires n <= |a|
    ensures (a + b)[..n] == a[..n] && (a + b)[n..] == a[n..] + b
  {
  }

  lemma AppendFirst<T>(s: seq<T>, x: T)
    requires s != []
    ensures (s + [x])[0] == s[0] && (s + [x])[1..] == s[1..] + [x]
  {
  }

  lemma FirstAndRest<T>(x: T, rest: seq<T>)
    ensures ([x] + rest)[0] == x && ([x] + rest)[1..] == rest
  {
  }

  lemma StillThere<T>(a: seq<T>, b: seq<T>, k: nat, n: nat)
    requires k + n <= |a|
    ensures (a + b)[k..k + n] == a[k..k + n]
  {
  }

  lemma StillIn<T>(s: seq<T>, p: nat, x: T)
    requires p < |s| && x in s && x != s[p]
    ensures x in s[..p] + s[p + 1..]
  {
    assert s == s[..p] + [s[p]] + s[p + 1..];
  }

  lemma Drops<T>(a: seq<T>, b: seq<T>)
    ensures (a + b)[|a|..] == (a + b)[|a|..|a| + |b|] == b
  {
  }
}
