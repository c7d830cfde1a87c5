/** White space and word counts, the service's token measure. */
module Words {
  import opened Seqs

  /** The white-space characters that splitting a string without arguments recognises. */
  predicate IsSpace(c: char) {
    var o := c as int;
    || 9 <= o <= 13 || 28 <= o <= 32 || o == 0x85 || o == 0xA0 || o == 0x1680
    || 0x2000 <= o <= 0x200A || o == 0x2028 || o == 0x2029 || o == 0x202F || o == 0x205F || o == 0x3000
  }

  /** Nothing but white space. */
  predicate Blank(s: string) {
    forall i :: 0 <= i < |s| ==> IsSpace(s[i])
  }

  /** A word starts at i. */
  predicate WordStart(s: string, i: nat)
    requires i < |s|
  {
    !IsSpace(s[i]) && (i == 0 || IsSpace(s[i - 1]))
  }

  /** Word starts among the first k characters. */
  function Starts(s: string, k: nat): nat
    requires k <= |s|
  {
    if k == 0 then 0 else Starts(s, k - 1) + (if WordStart(s, k - 1) then 1 else 0)
  }

  /** The number of words in s: of maximal runs without white space, counted by their starts. */
  function Count(s: string): nat {
    Starts(s, |s|)
  }

  /** Word starts in a prefix do not depend on what follows it. */
  lemma {:induction false} StartsPrefix(s: string, t: string, k: nat)
    requires k <= |s| && k <= |t| && s[..k] == t[..k]
    ensures Starts(s, k) == Starts(t, k)
  {
    if k > 0 {
      assert forall i :: 0 <= i < k ==> s[..k][i] == s[i] && t[..k][i] == t[i];
      assert s[..k - 1] == t[..k - 1];
      StartsPrefix(s, t, k - 1);
    }
  }

  lemma {:induction false} StartsMonotone(s: string, j: nat, k: nat)
    requires j <= k <= |s|
    ensures Starts(s, j) <= Starts(s, k)
  {
    if j < k { StartsMonotone(s, j, k - 1); }
  }

  lemma {:induction false} StartsShift(a: string, b: string, k: nat)
    requires k <= |b|
    ensures Starts(a + b, |a| + k) <= Starts(a + b, |a|) + Starts(b, k)
  {
    if k > 0 { StartsShift(a, b, k - 1); }
  }

  /** Concatenating can fuse a word across the seam but never add one. */
  lemma CountAppend(a: string, b: string)
    ensures Count(a) <= Count(a + b) <= Count(a) + Count(b)
  {
    assert (a + b)[..|a|] == a[..|a|];
    StartsPrefix(a + b, a, |a|);
    StartsMonotone(a + b, |a|, |a + b|);
    StartsShift(a, b, |b|);
  }

  lemma {:induction false} StartsZero(s: string, k: nat)
    requires k <= |s|
    ensures Starts(s, k) == 0 <==> Blank(s[..k])
  {
    if k > 0 {
      StartsZero(s, k - 1);
      assert forall i :: 0 <= i < k ==> s[..k][i] == s[i];
      assert forall i :: 0 <= i < k - 1 ==> s[..k - 1][i] == s[i];
      if Blank(s[..k - 1]) && !IsSpace(s[k - 1]) {
        assert k > 1 ==> IsSpace(s[..k - 1][k - 2]);
        assert WordStart(s, k - 1);
      }
    }
  }

  lemma CountZeroIffBlank(s: string)
    ensures Count(s) == 0 <==> Blank(s)
  {
    StartsZero(s, |s|);
    assert s[..|s|] == s;
  }

  // ---------------------------------------------------------------- sequences of pieces

  /** The concatenation of pieces [i, k). */
  function JoinRange(pieces: seq<string>, i: nat, k: nat): string
    requires i <= k <= |pieces|
    decreases k - i
  {
    if i == k then "" else pieces[i] + JoinRange(pieces, i + 1, k)
  }

  function Join(pieces: seq<string>): string {
    JoinRange(pieces, 0, |pieces|)
  }

  /** The words of pieces [i, k), counted piece by piece. */
  function CountRange(pieces: seq<string>, i: nat, k: nat): nat
    requires i <= k <= |pieces|
    decreases k - i
  {
    if i == k then 0 else Count(pieces[i]) + CountRange(pieces, i + 1, k)
  }

  lemma {:induction false} RangeSplit(pieces: seq<string>, i: nat, j: nat, k: nat)
    requires i <= j <= k <= |pieces|
    ensures JoinRange(pieces, i, k) == JoinRange(pieces, i, j) + JoinRange(pieces, j, k)
    ensures CountRange(pieces, i, k) == CountRange(pieces, i, j) + CountRange(pieces, j, k)
    decreases j - i
  {
    if i == j {
      Units(JoinRange(pieces, j, k));
    } else {
      RangeSplit(pieces, i + 1, j, k);
      Assoc(pieces[i], JoinRange(pieces, i + 1, j), JoinRange(pieces, j, k));
    }
  }

  /** Pieces that agree from position d on join alike. */
  lemma {:induction false} RangeShift(p: seq<string>, q: seq<string>, i: nat, k: nat, d: nat)
    requires i <= k <= |p| && k + d <= |q|
    requires forall x :: i <= x < k ==> p[x] == q[x + d]
    ensures JoinRange(p, i, k) == JoinRange(q, i + d, k + d)
    decreases k - i
  {
    if i < k {
      RangeShift(p, q, i + 1, k, d);
    }
  }

  lemma {:induction false} RangeOne(pieces: seq<string>, i: nat)
    requires i < |pieces|
    ensures JoinRange(pieces, i, i + 1) == pieces[i]
  {
    assert JoinRange(pieces, i + 1, i + 1) == "";
    Units(pieces[i]);
  }

  lemma JoinAppend(a: seq<string>, b: seq<string>)
    ensures Join(a + b) == Join(a) + Join(b)
  {
    RangeSplit(a + b, 0, |a|, |a + b|);
    RangeShift(a, a + b, 0, |a|, 0);
    RangeShift(b, a + b, 0, |b|, |a|);
  }

  lemma JoinOne(piece: string)
    ensures Join([piece]) == piece
  {
    RangeOne([piece], 0);
  }

  lemma JoinSnoc(pieces: seq<string>, piece: string)
    ensures Join(pieces + [piece]) == Join(pieces) + piece
  {
    JoinAppend(pieces, [piece]);
    JoinOne(piece);
  }

  /** No piece has more than `size` words. */
  ghost predicate Within(pieces: seq<string>, size: int) {
    forall i :: 0 <= i < |pieces| ==> Count(pieces[i]) <= size
  }

  ghost predicate NoneEmpty(pieces: seq<string>) {
    forall i :: 0 <= i < |pieces| ==> pieces[i] != ""
  }

  /** Word count is subadditive over any concatenation. */
  lemma {:induction false} CountJoin(pieces: seq<string>, i: nat, k: nat)
    requires i <= k <= |pieces|
    ensures Count(JoinRange(pieces, i, k)) <= CountRange(pieces, i, k)
    decreases k - i
  {
    if i < k {
      CountJoin(pieces, i + 1, k);
      CountAppend(pieces[i], JoinRange(pieces, i + 1, k));
    }
  }
}
