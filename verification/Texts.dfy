/** String operations that several components share. */
module Texts {
  import opened Seqs
  import opened Words

  /** Where the prefix of length k ends once trailing white space is gone. */
  function Trimmed(text: string, k: nat): (e: nat)
    requires k <= |text|
    ensures e <= k && (e == 0 || !IsSpace(text[e - 1]))
    ensures forall i :: e <= i < k ==> IsSpace(text[i])
  {
    if k == 0 || !IsSpace(text[k - 1]) then k else Trimmed(text, k - 1)
  }

  /** Where the text from k to e begins once leading white space is gone. */
  function Leading(text: string, k: nat, e: nat): (b: nat)
    requires k <= e <= |text|
    ensures k <= b <= e && (b == e || !IsSpace(text[b]))
    decreases e - k
  {
    if k == e || !IsSpace(text[k]) then k else Leading(text, k + 1, e)
  }

  function Strip(text: string): string {
    var e := Trimmed(text, |text|);
    text[Leading(text, 0, e)..e]
  }

  /** No white space at either end. */
  predicate Bare(text: string) {
    text == "" || (!IsSpace(text[0]) && !IsSpace(text[|text| - 1]))
  }

  lemma StripBare(text: string)
    requires Bare(text)
    ensures Strip(text) == text
  {
  }

  /** Every occurrence of one character becomes a string. */
  function ReplaceChar(s: string, c: char, r: string): string {
    if s == "" then "" else (if s[0] == c then r else [s[0]]) + ReplaceChar(s[1..], c, r)
  }

  lemma {:induction false} ReplaceAppend(a: string, b: string, c: char, r: string)
    ensures ReplaceChar(a + b, c, r) == ReplaceChar(a, c, r) + ReplaceChar(b, c, r)
  {
    if a == "" {
      Units(b);
      Units(ReplaceChar(b, c, r));
    } else {
      AppendHead(a, b);
      ReplaceAppend(a[1..], b, c, r);
      Assoc(if a[0] == c then r else [a[0]], ReplaceChar(a[1..], c, r), ReplaceChar(b, c, r));
    }
  }

  /** A character that does not occur is not replaced. */
  lemma {:induction false} ReplaceNone(s: string, c: char, r: string)
    requires c !in s
    ensures ReplaceChar(s, c, r) == s
  {
    if s != "" {
      assert s == [s[0]] + s[1..];
      ReplaceNone(s[1..], c, r);
    }
  }

  lemma {:induction false} ReplaceOne(c: char, r: string)
    ensures ReplaceChar([c], c, r) == r
  {
    assert [c][1..] == "";
    Units(r);
  }
}
