/** Facts about sequences that the proofs name one at a time, so that no
    proof asks the solver to find them among many slices. */
module Sequences {

  lemma Assoc<T>(a: seq<T>, b: seq<T>, c: seq<T>)
    ensures a + (b + c) == a + b + c
  {
  }

  lemma Empty<T>(a: seq<T>)
    ensures a + [] == a && [] + a == a
  {
  }

  lemma Tail<T>(a: seq<T>, b: seq<T>)
    requires a != []
    ensures a + b != [] && (a + b)[0] == a[0] && (a + b)[1..] == a[1..] + b
  {
  }

  lemma Parts<T>(a: seq<T>, b: seq<T>)
    ensures (a + b)[..|a|] == a && (a + b)[|a|..] == b
  {
  }

  lemma Split<T>(s: seq<T>, n: nat)
    requires n <= |s|
    ensures s == s[..n] + s[n..]
  {
  }

  lemma Cons<T>(s: seq<T>)
    requires s != []
    ensures s == [s[0]] + s[1..]
  {
  }

  lemma Behind<T>(x: T, rest: seq<T>)
    ensures ([x] + rest)[0] == x && ([x] + rest)[1..] == rest
  {
  }

  lemma Slice<T>(s: seq<T>, from: nat, n: nat)
    requires from + n <= |s|
    ensures s[from..][..n] == s[from..from + n]
    ensures s[from..][n..] == s[from + n..]
  {
  }

  lemma Slices<T>(s: seq<T>, a: nat, b: nat, c: nat, d: nat)
    requires a <= b <= |s| && c <= d <= b - a
    ensures s[a..b][c..d] == s[a + c..a + d]
  {
    forall i | 0 <= i < d - c
      ensures s[a..b][c..d][i] == s[a + c..a + d][i]
    {
      assert s[a..b][c..d][i] == s[a..b][c + i] == s[a + (c + i)];
    }
  }

  lemma Cut<T>(s: seq<T>, from: nat, to: nat)
    requires from <= to <= |s|
    ensures s[from..to] + s[to..] == s[from..]
  {
  }

  lemma Past<T>(s: seq<T>, from: nat, to: nat)
    requires from <= to && |s| <= to
    ensures from <= |s| ==> s[from..|s|] == s[from..]
  {
  }

  lemma Extend<T>(s: seq<T>, from: nat, to: nat)
    requires from <= to < |s|
    ensures s[from..to + 1] == s[from..to] + [s[to]]
  {
  }

  lemma Ends<T>(s: seq<T>)
    ensures s[..0] == [] && s[..|s|] == s
  {
  }

  lemma From0<T>(s: seq<T>)
    ensures s[0..] == s
  {
  }

  lemma Grow<T>(s: seq<T>, to: nat)
    requires to < |s|
    ensures s[..to + 1] == s[..to] + [s[to]]
  {
  }

  lemma Front<T>(s: seq<T>, i: nat)
    requires i < |s|
    ensures s[i..] != [] && s[i..][0] == s[i] && s[i..][1..] == s[i + 1..]
  {
  }

  /** `tail` is what stands in `s` from an index on. */
  ghost predicate From<T>(s: seq<T>, at: nat, tail: seq<T>) {
    at + |tail| == |s| && s[at..] == tail
  }

  lemma After<T>(s: seq<T>, at: nat, x: T, tail: seq<T>)
    requires From(s, at, [x] + tail)
    ensures at < |s| && s[at] == x && From(s, at + 1, tail)
  {
    Parts([x], tail);
    Slice(s, at, 1);
    assert s[at..][0] == x;
  }

  lemma AfterAll<T>(s: seq<T>, at: nat, head: seq<T>, tail: seq<T>)
    requires From(s, at, head + tail)
    ensures at + |head| <= |s| && s[at..at + |head|] == head && From(s, at + |head|, tail)
  {
    Parts(head, tail);
    Slice(s, at, |head|);
  }

  lemma FromLength<T>(s: seq<T>, at: nat, tail: seq<T>)
    requires From(s, at, tail)
    ensures at + |tail| == |s|
  {
  }
}
