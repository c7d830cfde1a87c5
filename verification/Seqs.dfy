/** Facts about sequences that the other proofs cite by name. */
module Seqs {
  lemma Assoc<T>(a: seq<T>, b: seq<T>, c: seq<T>)
    ensures a + b + c == a + (b + c)
  {
  }

  /** Dropping in two steps. */
  lemma DropDrop<T>(s: seq<T>, i: nat, k: nat)
    requires i + k <= |s|
    ensures s[i..][k..] == s[i + k..]
  {
  }

  lemma DropHead<T>(s: seq<T>, i: nat)
    requires i < |s|
    ensures s[i..] != [] && s[i..][0] == s[i] && s[i..][1..] == s[i + 1..]
    ensures s[i..] == [s[i]] + s[i + 1..]
  {
  }

  lemma AppendHead<T>(a: seq<T>, b: seq<T>)
    requires a != []
    ensures (a + b)[0] == a[0] && (a + b)[1..] == a[1..] + b
  {
  }

  lemma Cut<T>(s: seq<T>, k: nat)
    requires k <= |s|
    ensures s[..k] + s[k..] == s
  {
  }

  lemma TakeStep<T>(s: seq<T>, k: nat)
    requires k < |s|
    ensures s[..k + 1] == s[..k] + [s[k]]
  {
  }

  lemma Units<T>(s: seq<T>)
    ensures [] + s == s && s + [] == s && s[0..] == s && s[..|s|] == s && s[|s|..] == []
  {
  }
}
