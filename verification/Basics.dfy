/** Results, options, and facts about integers and sequences that every module uses. */
module Basics {

  datatype Result<+T, +E> = Ok(value: T) | Err(error: E)

  datatype Option<+T> = None | Some(value: T)

  function Min(a: int, b: int): (r: int)
  {
    if a < b then a else b
  }

  function Max(a: int, b: int): (r: int)
  {
    if a > b then a else b
  }

  function Abs(x: int): (r: nat)
  {
    if x < 0 then -x else x
  }

  // ----- Joining and cutting sequences -----

  lemma Reassociate<T>(a: seq<T>, b: seq<T>, c: seq<T>)
    ensures a + (b + c) == a + b + c && a + (b + c) + [] == a + b + c
  {
  }

  lemma Associate<T>(a: seq<T>, b: seq<T>, c: seq<T>, d: seq<T>)
    ensures a + (b + c) == a + b + c
    ensures a + (b + c + d) == a + b + c + d
  {
  }

  lemma Regroup<T>(a: seq<T>, b: seq<T>)
    ensures a + [] == a && (a + []) + b == a + b
    ensures (a + b) + [] == a + b
  {
  }

  /** The parts of a joined sequence, found again by their lengths. */
  lemma Slices<T>(a: seq<T>, b: seq<T>, c: seq<T>)
    ensures (a + b + c)[..|a|] == a
    ensures (a + b + c)[|a|..] == b + c
    ensures (b + c)[..|b|] == b
    ensures (b + c)[|b|..] == c
  {
  }

  lemma Joined<T>(s: seq<T>, i: nat, j: nat)
    requires i <= j <= |s|
    ensures s[..i] + s[i..j] + s[j..] == s
  {
  }

  lemma Heads<T>(a: seq<T>, b: seq<T>)
    requires a != []
    ensures (a + b)[0] == a[0] && (a + b)[1..] == a[1..] + b
  {
  }

  lemma ConsParts<T>(x: T, s: seq<T>, rest: seq<T>)
    ensures [x] + s + rest == [x] + (s + rest) && ([x] + s + rest)[0] == x && ([x] + s + rest)[1..] == s + rest
  {
  }

  lemma Suffix<T>(a: seq<T>, b: seq<T>, c: seq<T>)
    ensures (a + (b + c))[|a| + |b|..] == c
  {
  }

  lemma DropPrefix<T>(a: seq<T>, b: seq<T>, c: seq<T>, d: seq<T>)
    requires a + b == c + d && |c| <= |a|
    ensures a[|c|..] + b == d
  {
    assert (a + b)[|c|..] == a[|c|..] + b && (c + d)[|c|..] == d;
  }

  lemma HeadAndTail<T>(s: seq<T>)
    requires s != []
    ensures [s[0]] + s[1..] == s
  {
  }

  /** A split of the tail is one of the whole. */
  lemma SplitTail<T>(s: seq<T>, first: seq<T>)
    requires s != [] && |first| < |s| && s[1..] == first + s[1..][|first|..]
    ensures var longer := [s[0]] + first;
      s == longer + s[|longer|..] && s[|longer|..] == s[1..][|first|..]
  {
    assert s == [s[0]] + s[1..];
  }

  lemma SplitAt<T>(s: seq<T>, k: nat)
    requires k < |s|
    ensures s[k..] == [s[k]] + s[k + 1..] && s[..k + 1] == s[..k] + [s[k]]
  {
  }

  lemma PrefixOfSum<T>(a: seq<T>, b: seq<T>)
    ensures a <= a + b
  {
  }

  lemma PrefixTransitive<T>(a: seq<T>, b: seq<T>, c: seq<T>)
    requires a <= b && b <= c
    ensures a <= c
  {
    assert c[..|b|] == b && b[..|a|] == a;
  }

  lemma PrefixCons<T>(x: T, a: seq<T>, b: seq<T>)
    requires b != [] && x == b[0] && a <= b[1..]
    ensures [x] + a <= b
  {
  }

  lemma SplitMultiset<T>(s: seq<T>, n: nat)
    requires n <= |s|
    ensures multiset(s[..n]) + multiset(s[n..]) == multiset(s)
  {
    assert s == s[..n] + s[n..];
  }
}
