/** What the other modules share. */
module Common {
  datatype Option<+T> = None | Some(value: T)

  /** The two ends of a connection. */
  datatype Side = A | B

  function Opp(x: Side): Side {
    if x.A? then B else A
  }

  lemma Assoc<T>(a: seq<T>, b: seq<T>, c: seq<T>)
    ensures a + (b + c) == a + b + c
  {
  }

  lemma PrefixMembers<T>(s: seq<T>, n: nat)
    requires n <= |s|
    ensures forall k :: 0 <= k < n ==> s[k] in s[..n]
  {
    forall k | 0 <= k < n ensures s[k] in s[..n] {
      assert s[..n][k] == s[k];
    }
  }
}
