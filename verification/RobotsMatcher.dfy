/**
 The robots.txt path matcher: a loop that backtracks to the last star, against the wildcard relation of
 section 2.2.3 of RFC 9309 ('*' stands for any run of characters, a final '$' anchors the end, and a
 pattern without it matches every prefix).
 */
module RobotsMatcher {

  // ---------------------------------------------------------------- the wildcard relation

  /** The whole of t is an instance of the pattern p. */
  ghost predicate Glob(p: string, t: string)
    decreases |p|
  {
    if p == "" then t == ""
    else if p[0] == '*' then exists k :: 0 <= k <= |t| && Glob(p[1..], t[k..])
    else t != "" && t[0] == p[0] && Glob(p[1..], t[1..])
  }

  /** The relation a rule denotes: the whole target when anchored, some prefix of it otherwise. */
  ghost predicate Denotes(p: string, anchored: bool, t: string) {
    if anchored then Glob(p, t) else exists k :: 0 <= k <= |t| && Glob(p, t[..k])
  }

  /** The same relation by positions: p from i on against t from j on. */
  predicate Rest(p: string, anchored: bool, t: string, i: nat, j: nat)
    requires i <= |p| && j <= |t|
    decreases |p| - i, |t| - j
  {
    if i == |p| then !anchored || j == |t|
    else if p[i] == '*' then Rest(p, anchored, t, i + 1, j) || (j < |t| && Rest(p, anchored, t, i, j + 1))
    else j < |t| && p[i] == t[j] && Rest(p, anchored, t, i + 1, j + 1)
  }

  /** p from i on matches t from some position at or after `from`. */
  ghost predicate Reaches(p: string, anchored: bool, t: string, i: nat, from: nat)
    requires i <= |p|
  {
    exists k :: from <= k <= |t| && Rest(p, anchored, t, i, k)
  }

  lemma {:induction false} StarReaches(p: string, anchored: bool, t: string, i: nat, j: nat)
    requires i < |p| && p[i] == '*' && j <= |t|
    ensures Rest(p, anchored, t, i, j) <==> Reaches(p, anchored, t, i + 1, j)
    decreases |t| - j
  {
    if j < |t| { StarReaches(p, anchored, t, i, j + 1); }
  }

  lemma {:induction false} RestIsGlob(p: string, t: string, i: nat, j: nat)
    requires i <= |p| && j <= |t|
    ensures Rest(p, true, t, i, j) <==> Glob(p[i..], t[j..])
    decreases |p| - i
  {
    if i < |p| {
      assert p[i..][1..] == p[i + 1..];
      if p[i] == '*' {
        StarReaches(p, true, t, i, j);
        forall d | 0 <= d <= |t| - j
          ensures Rest(p, true, t, i + 1, j + d) <==> Glob(p[i..][1..], t[j..][d..])
        {
          RestIsGlob(p, t, i + 1, j + d);
          assert t[j..][d..] == t[j + d..];
        }
        if Glob(p[i..], t[j..]) {
          var d :| 0 <= d <= |t[j..]| && Glob(p[i..][1..], t[j..][d..]);
          assert Rest(p, true, t, i + 1, j + d);
        }
        if Reaches(p, true, t, i + 1, j) {
          var k :| j <= k <= |t| && Rest(p, true, t, i + 1, k);
          assert Rest(p, true, t, i + 1, j + (k - j));
          assert Glob(p[i..][1..], t[j..][k - j..]);
        }
      } else if j < |t| {
        RestIsGlob(p, t, i + 1, j + 1);
        assert t[j..][1..] == t[j + 1..];
      }
    }
  }

  /** An unanchored match is an anchored match of a prefix of the target. */
  lemma {:induction false} RestOfPrefix(p: string, t: string, i: nat, j: nat)
    requires i <= |p| && j <= |t|
    ensures Rest(p, false, t, i, j) <==> exists k :: j <= k <= |t| && Rest(p, true, t[..k], i, j)
    decreases |p| - i, |t| - j
  {
    if i == |p| {
      assert Rest(p, true, t[..j], i, j);
    } else {
      forall k | j <= k <= |t|
        ensures p[i] != '*' && j < k ==>
                  (Rest(p, true, t[..k], i, j) <==> p[i] == t[j] && Rest(p, true, t[..k], i + 1, j + 1))
        ensures p[i] == '*' ==> (Rest(p, true, t[..k], i, j) <==>
                  Rest(p, true, t[..k], i + 1, j) || (j < k && Rest(p, true, t[..k], i, j + 1)))
      {
      }
      if p[i] == '*' {
        RestOfPrefix(p, t, i + 1, j);
        if j < |t| { RestOfPrefix(p, t, i, j + 1); }
      } else if j < |t| {
        RestOfPrefix(p, t, i + 1, j + 1);
      }
    }
  }

  /** The positional form is the wildcard relation. */
  lemma {:induction false} RestIsDenotes(p: string, anchored: bool, t: string)
    ensures Rest(p, anchored, t, 0, 0) <==> Denotes(p, anchored, t)
  {
    assert p[0..] == p && t[0..] == t;
    if anchored {
      RestIsGlob(p, t, 0, 0);
    } else {
      RestOfPrefix(p, t, 0, 0);
      forall k | 0 <= k <= |t|
        ensures Rest(p, true, t[..k], 0, 0) <==> Glob(p, t[..k])
      {
        RestIsGlob(p, t[..k], 0, 0);
        assert t[..k][0..] == t[..k];
      }
      if Denotes(p, false, t) {
        var k :| 0 <= k <= |t| && Glob(p, t[..k]);
        assert Rest(p, true, t[..k], 0, 0);
      }
    }
  }

  // ---------------------------------------------------------------- the loop

  /** The loop's variables; `star` is -1 until a star has been passed. */
  datatype Cursor = Cursor(pattern: nat, target: nat, star: int, starTarget: nat)

  predicate InBounds(p: string, t: string, c: Cursor) {
    && c.pattern <= |p|
    && c.target <= |t|
    && -1 <= c.star < c.pattern
    && c.starTarget <= c.target
  }

  datatype Outcome = Answer(matched: bool) | Next(cursor: Cursor)

  /** One round of the loop, in the order in which the tests are made. */
  function Step(p: string, anchored: bool, t: string, c: Cursor): (o: Outcome)
    requires InBounds(p, t, c) && c.target < |t|
    ensures o.Next? ==> InBounds(p, t, o.cursor)
  {
    if !anchored && c.pattern == |p| then Answer(true)
    else if c.pattern < |p| && p[c.pattern] == t[c.target] then
      Next(c.(pattern := c.pattern + 1, target := c.target + 1))
    else if c.pattern < |p| && p[c.pattern] == '*' then
      Next(Cursor(c.pattern + 1, c.target, c.pattern, c.target))
    else if c.star >= 0 then
      Next(Cursor(c.star + 1, c.starTarget + 1, c.star, c.starTarget + 1))
    else Answer(false)
  }

  predicate OnlyStars(p: string, i: nat)
    requires i <= |p|
    decreases |p| - i
  {
    i == |p| || (p[i] == '*' && OnlyStars(p, i + 1))
  }

  /** What the loop answers from a cursor. */
  predicate Run(p: string, anchored: bool, t: string, c: Cursor)
    requires InBounds(p, t, c)
    decreases |p| - c.star, |t| - c.starTarget, |t| - c.target
  {
    if c.target == |t| then OnlyStars(p, c.pattern)
    else
      match Step(p, anchored, t, c)
      case Answer(matched) => matched
      case Next(cursor) => Run(p, anchored, t, cursor)
  }

  const START := Cursor(0, 0, -1, 0)

  /** The loop itself, after the pattern has been normalised and its anchor removed. */
  method MatchLoop(pattern: string, anchored: bool, target: string) returns (matched: bool)
    ensures matched == Run(pattern, anchored, target, START)
  {
    var patternIndex, targetIndex, starIndex, starTarget := 0, 0, -1, 0;
    while targetIndex < |target|
      invariant InBounds(pattern, target, Cursor(patternIndex, targetIndex, starIndex, starTarget))
      invariant Run(pattern, anchored, target, Cursor(patternIndex, targetIndex, starIndex, starTarget))
             == Run(pattern, anchored, target, START)
      decreases |pattern| - starIndex, |target| - starTarget, |target| - targetIndex
    {
      if !anchored && patternIndex == |pattern| {
        return true;
      }
      if patternIndex < |pattern| && pattern[patternIndex] == target[targetIndex] {
        patternIndex := patternIndex + 1;
        targetIndex := targetIndex + 1;
      } else if patternIndex < |pattern| && pattern[patternIndex] == '*' {
        starIndex := patternIndex;
        starTarget := targetIndex;
        patternIndex := patternIndex + 1;
      } else if starIndex >= 0 {
        patternIndex := starIndex + 1;
        starTarget := starTarget + 1;
        targetIndex := starTarget;
      } else {
        return false;
      }
    }
    while patternIndex < |pattern| && pattern[patternIndex] == '*'
      invariant patternIndex <= |pattern|
      invariant OnlyStars(pattern, patternIndex) == Run(pattern, anchored, target, START)
    {
      patternIndex := patternIndex + 1;
    }
    return patternIndex == |pattern|;
  }

  // ---------------------------------------------------------------- soundness and completeness

  lemma {:induction false} AtEndOnlyStars(p: string, anchored: bool, t: string, i: nat)
    requires i <= |p|
    ensures OnlyStars(p, i) ==> Rest(p, anchored, t, i, |t|)
    ensures Rest(p, anchored, t, i, |t|) ==> OnlyStars(p, i)
    decreases |p| - i
  {
    if i < |p| { AtEndOnlyStars(p, anchored, t, i + 1); }
  }

  /** Some match in which the last star passed takes more than it has so far. */
  ghost predicate StarRetry(p: string, anchored: bool, t: string, c: Cursor)
    requires InBounds(p, t, c)
  {
    c.star >= 0 && Reaches(p, anchored, t, c.star + 1, c.starTarget + 1)
  }

  /** What the loop may still find: a match from here, or one that extends the last star. */
  ghost predicate Promise(p: string, anchored: bool, t: string, c: Cursor)
    requires InBounds(p, t, c)
  {
    Rest(p, anchored, t, c.pattern, c.target) || StarRetry(p, anchored, t, c)
  }

  /** No round invents a match, whatever characters the target has. */
  lemma StepSound(p: string, anchored: bool, t: string, c: Cursor)
    requires InBounds(p, t, c) && c.target < |t|
    ensures var o := Step(p, anchored, t, c);
            if o.Answer? then o.matched ==> Promise(p, anchored, t, c)
            else Promise(p, anchored, t, o.cursor) ==> Promise(p, anchored, t, c)
  {
    var o := Step(p, anchored, t, c);
    if c.pattern < |p| && p[c.pattern] == '*' {
      StarReaches(p, anchored, t, c.pattern, c.target);
      StarReaches(p, anchored, t, c.pattern, c.target + 1);
    }
  }

  /** Soundness, for every target: an answer of true is a match. */
  lemma {:induction false} RunSound(p: string, anchored: bool, t: string, c: Cursor)
    requires InBounds(p, t, c) && Run(p, anchored, t, c)
    ensures Promise(p, anchored, t, c)
    decreases |p| - c.star, |t| - c.starTarget, |t| - c.target
  {
    if c.target == |t| {
      AtEndOnlyStars(p, anchored, t, c.pattern);
    } else {
      StepSound(p, anchored, t, c);
      var o := Step(p, anchored, t, c);
      if o.Next? { RunSound(p, anchored, t, o.cursor); }
    }
  }

  /** No star before the last character: the targets on which the loop decides the relation. */
  predicate StarFreeFront(t: string) {
    forall j :: 0 <= j < |t| - 1 ==> t[j] != '*'
  }

  /** Since the last star, the loop has consumed literals only, one target character each. */
  predicate Literal(p: string, t: string, c: Cursor)
    requires InBounds(p, t, c)
  {
    c.star >= 0 ==>
      && c.pattern - c.star - 1 == c.target - c.starTarget
      && forall i :: c.star < i < c.pattern ==> p[i] != '*'
  }

  /** A literal stretch shifts a match of the pattern along the target. */
  lemma {:induction false} LiteralShift(p: string, anchored: bool, t: string, i: nat, k: nat, x: nat)
    requires i <= k <= |p| && x <= |t| && Rest(p, anchored, t, i, x)
    requires forall m :: i <= m < k ==> p[m] != '*'
    ensures x + (k - i) <= |t| && Rest(p, anchored, t, k, x + (k - i))
    decreases k - i
  {
    if i < k { LiteralShift(p, anchored, t, i + 1, k, x + 1); }
  }

  /** With a literal stretch, a later start of the star leads to a later position here. */
  lemma RetryShifts(p: string, anchored: bool, t: string, c: Cursor)
    requires InBounds(p, t, c) && Literal(p, t, c) && StarRetry(p, anchored, t, c)
    ensures Reaches(p, anchored, t, c.pattern, c.target + 1)
  {
    var x :| c.starTarget < x <= |t| && Rest(p, anchored, t, c.star + 1, x);
    LiteralShift(p, anchored, t, c.star + 1, c.pattern, x);
  }

  /** No round loses a match on a star-free front. */
  lemma {:induction false} StepComplete(p: string, anchored: bool, t: string, c: Cursor)
    requires InBounds(p, t, c) && Literal(p, t, c) && c.target < |t| && StarFreeFront(t)
    requires Promise(p, anchored, t, c)
    ensures var o := Step(p, anchored, t, c);
            if o.Answer? then o.matched
            else if o.cursor.target == |t| then OnlyStars(p, o.cursor.pattern)
            else Literal(p, t, o.cursor) && Promise(p, anchored, t, o.cursor)
  {
    var o := Step(p, anchored, t, c);
    var star := c.pattern < |p| && p[c.pattern] == '*';
    if star {
      StarReaches(p, anchored, t, c.pattern, c.target);
    }
    if o.Next? && StarRetry(p, anchored, t, c) {
      RetryShifts(p, anchored, t, c);
      var y :| c.target < y <= |t| && Rest(p, anchored, t, c.pattern, y);
      if star {
        StarReaches(p, anchored, t, c.pattern, y);
        var z :| y <= z <= |t| && Rest(p, anchored, t, c.pattern + 1, z);
        assert c.target < z;
      }
    }
    if o.Next? && o.cursor.target == |t| {
      EndsHere(p, anchored, t, c);
    }
  }

  /** Consuming the last character leaves only stars to match. */
  lemma {:induction false} EndsHere(p: string, anchored: bool, t: string, c: Cursor)
    requires InBounds(p, t, c) && Literal(p, t, c) && c.target < |t| && StarFreeFront(t)
    requires Promise(p, anchored, t, c)
    requires Step(p, anchored, t, c).Next? && Step(p, anchored, t, c).cursor.target == |t|
    ensures OnlyStars(p, Step(p, anchored, t, c).cursor.pattern)
  {
    var n := Step(p, anchored, t, c).cursor;
    AtEndOnlyStars(p, anchored, t, n.pattern);
    AtEndOnlyStars(p, anchored, t, c.pattern);
    if StarRetry(p, anchored, t, c) {
      RetryShifts(p, anchored, t, c);
    }
    if c.pattern < |p| && p[c.pattern] == '*' == t[c.target] {
      LastCharByStar(p, anchored, t, c.pattern + 1);
    }
  }

  /** A final '*' of the target can only be matched by a star of the pattern. */
  lemma {:induction false} LastCharByStar(p: string, anchored: bool, t: string, i: nat)
    requires i <= |p| && t != "" && t[|t| - 1] == '*'
    ensures Rest(p, anchored, t, i, |t| - 1) ==> OnlyStars(p, i)
    decreases |p| - i
  {
    if i < |p| {
      LastCharByStar(p, anchored, t, i + 1);
      AtEndOnlyStars(p, anchored, t, i);
    }
  }

  /** Completeness on a star-free front: a match from here, or by the last star, is found. */
  lemma {:induction false} RunComplete(p: string, anchored: bool, t: string, c: Cursor)
    requires InBounds(p, t, c) && Literal(p, t, c) && StarFreeFront(t) && c.target < |t|
    requires Promise(p, anchored, t, c)
    ensures Run(p, anchored, t, c)
    decreases |p| - c.star, |t| - c.starTarget, |t| - c.target
  {
    StepComplete(p, anchored, t, c);
    var o := Step(p, anchored, t, c);
    if o.Next? && o.cursor.target < |t| { RunComplete(p, anchored, t, o.cursor); }
  }

  /** An answer of true is always a match of the wildcard relation. */
  lemma {:induction false} MatchSound(p: string, anchored: bool, t: string)
    requires Run(p, anchored, t, START)
    ensures Denotes(p, anchored, t)
  {
    RunSound(p, anchored, t, START);
    RestIsDenotes(p, anchored, t);
  }

  /** Every match is found on a target with no star before its last character. */
  lemma {:induction false} MatchComplete(p: string, anchored: bool, t: string)
    requires Denotes(p, anchored, t) && StarFreeFront(t)
    ensures Run(p, anchored, t, START)
  {
    RestIsDenotes(p, anchored, t);
    if t == "" {
      AtEndOnlyStars(p, anchored, t, 0);
    } else {
      RunComplete(p, anchored, t, START);
    }
  }

  // ---------------------------------------------------------------- the exact condition

  lemma {:induction false} LiteralRun(p: string, anchored: bool, t: string, k: nat)
    requires k <= |p| && k <= |t| && p[..k] == t[..k] && (anchored || k < |p|)
    ensures Run(p, anchored, t, START) == Run(p, anchored, t, Cursor(k, k, -1, 0))
  {
    if k > 0 {
      assert p[..k - 1] == p[..k][..k - 1] && t[..k - 1] == t[..k][..k - 1];
      LiteralRun(p, anchored, t, k - 1);
      assert p[..k][k - 1] == p[k - 1] && t[..k][k - 1] == t[k - 1];
    }
  }

  lemma {:induction false} GlobLiteral(p: string, t: string, k: nat)
    requires k <= |p| && k <= |t| && p[..k] == t[..k] && Glob(p[k..], t[k..])
    requires forall i :: 0 <= i < k ==> p[i] != '*'
    ensures Glob(p, t)
    decreases k
  {
    if k > 0 {
      var i := k - 1;
      assert p[..k][i] == p[i] && t[..k][i] == t[i];
      assert p[i..][1..] == p[k..] && t[i..][1..] == t[k..];
      assert p[..i] == p[..k][..i] && t[..i] == t[..k][..i];
      GlobLiteral(p, t, i);
    } else {
      assert p[0..] == p && t[0..] == t;
    }
  }

  /** A star before the last character of the target hides a match from some anchored pattern. */
  lemma {:induction false} StarInFrontHides(t: string, k: nat)
    requires k < |t| - 1 && t[k] == '*' && forall j :: 0 <= j < k ==> t[j] != '*'
    ensures var p := t[..k] + "*"; Denotes(p, true, t) && !Run(p, true, t, START)
  {
    var p := t[..k] + "*";
    assert p[..k] == t[..k];
    assert p[k..] == "*";
    assert Glob("*", t[k..]) by {
      var s := t[k..];
      assert "*"[1..] == "" && s[|s|..] == "";
      assert Glob("*"[1..], s[|s|..]);
    }
    GlobLiteral(p, t, k);
    LiteralRun(p, true, t, k);
  }

  /**
   The loop decides the wildcard relation for every pattern exactly on the targets that have no star
   before their last character.
   */
  lemma {:induction false} DecidesIffStarFreeFront(t: string)
    ensures (forall p, anchored :: Run(p, anchored, t, START) <==> Denotes(p, anchored, t)) <==> StarFreeFront(t)
  {
    if StarFreeFront(t) {
      forall p, anchored
        ensures Run(p, anchored, t, START) <==> Denotes(p, anchored, t)
      {
        if Run(p, anchored, t, START) { MatchSound(p, anchored, t); }
        if Denotes(p, anchored, t) { MatchComplete(p, anchored, t); }
      }
    } else {
      var k := FirstStar(t, 0);
      StarInFrontHides(t, k);
    }
  }

  /** The first star before the last character. */
  function FirstStar(t: string, from: nat): (k: nat)
    requires exists j :: from <= j < |t| - 1 && t[j] == '*'
    ensures from <= k < |t| - 1 && t[k] == '*' && forall j :: from <= j < k ==> t[j] != '*'
    decreases |t| - from
  {
    if t[from] == '*' then from else FirstStar(t, from + 1)
  }
}
