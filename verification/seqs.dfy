/**
 * General facts about sequences. Stated once over an arbitrary element
 * type, they spare the proofs about sequences of strings from comparing
 * the strings themselves character by character.
 */
module Seqs {

  /** A non-empty sequence is its head followed by its tail. */
  lemma HeadTail<T>(s: seq<T>)
    requires |s| > 0
    ensures s == [s[0]] + s[1..]
  {
  }

  /** Dropping one more element from a suffix. */
  lemma SuffixTail<T>(s: seq<T>, k: nat)
    requires k < |s|
    ensures s[k..][0] == s[k] && s[k..][1..] == s[k + 1..]
  {
  }

  /** Extending a prefix by the next element. */
  lemma PrefixPush<T>(s: seq<T>, k: nat)
    requires k < |s|
    ensures s[..k] + [s[k]] == s[..k + 1]
  {
  }

  /** `f` applied to every element. */
  function Map<T, U>(f: T -> U, s: seq<T>): (r: seq<U>)
    ensures |r| == |s|
    ensures forall i :: 0 <= i < |s| ==> r[i] == f(s[i])
  {
    seq(|s|, i requires 0 <= i < |s| => f(s[i]))
  }

  lemma MapCons<T, U>(f: T -> U, x: T, rest: seq<T>)
    ensures Map(f, [x] + rest) == [f(x)] + Map(f, rest)
  {
    var l, r := Map(f, [x] + rest), [f(x)] + Map(f, rest);
    assert forall i :: 0 <= i < |l| ==> l[i] == r[i];
  }

  /** `p` holds of every element. */
  predicate All<T>(p: T -> bool, s: seq<T>)
  {
    forall i :: 0 <= i < |s| ==> p(s[i])
  }

  lemma AllCons<T>(p: T -> bool, x: T, rest: seq<T>)
    ensures All(p, [x] + rest) <==> p(x) && All(p, rest)
  {
    var s := [x] + rest;
    assert s[0] == x;
    assert forall i :: 0 < i < |s| ==> s[i] == rest[i - 1];
    if p(x) && All(p, rest) {
      forall i | 0 <= i < |s| ensures p(s[i]) {
        if i > 0 { assert s[i] == rest[i - 1]; }
      }
    }
    if All(p, s) {
      forall j | 0 <= j < |rest| ensures p(rest[j]) {
        assert s[j + 1] == rest[j];
      }
    }
  }

  lemma AppendEmpty<T>(a: seq<T>, e: seq<T>)
    requires e == []
    ensures a + e == a && e + a == a
  {
  }
}
