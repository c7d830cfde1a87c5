/** What a dotenv file says, without its loops and flags: where comments begin, and which assignments stand. */
module EnvReading {
  import opened Words
  import opened Texts
  import opened EnvFile

  // ---------------------------------------------------------------- comments

  datatype Quoting = Outside | InSingle | InDouble | AfterBackslash

  /** How one more character changes what is quoted. */
  function Stepped(q: Quoting, c: char): Quoting {
    match q
    case Outside => if c == '\'' then InSingle else if c == '"' then InDouble else Outside
    case InSingle => if c == '\'' then Outside else InSingle
    case InDouble => if c == '"' then Outside else if c == '\\' then AfterBackslash else InDouble
    case AfterBackslash => InDouble
  }

  /** What is quoted after the first k characters. */
  function QuotingAfter(s: string, k: nat): Quoting
    requires k <= |s|
  {
    if k == 0 then Outside else Stepped(QuotingAfter(s, k - 1), s[k - 1])
  }

  predicate StartsComment(s: string, k: nat) {
    k < |s| && s[k] == '#' && QuotingAfter(s, k) == Outside && (k == 0 || IsSpace(s[k - 1]))
  }

  lemma {:induction false} CommentFrom(s: string, k: nat)
    requires k <= |s|
    ensures var q := QuotingAfter(s, k); var at := CommentAt(s, k, q.InSingle?, !q.Outside? && !q.InSingle?,
                                                             q.AfterBackslash?);
            && (at.Some? ==> StartsComment(s, at.value))
            && forall i :: k <= i < (if at.Some? then at.value else |s|) ==> !StartsComment(s, i)
    decreases |s| - k
  {
    if k < |s| && !StartsComment(s, k) { CommentFrom(s, k + 1); }
  }

  /** Without its comment a value is what stands before the first place where one starts; white space around it goes. */
  lemma CommentDecides(raw: string, k: nat)
    requires raw == Strip(raw) && k <= |raw|
    requires forall i :: 0 <= i < k ==> !StartsComment(raw, i)
    requires k < |raw| ==> StartsComment(raw, k)
    ensures var value := StripInlineComment(raw);
            && value <= raw[..k] && (value == "" || !IsSpace(value[|value| - 1]))
            && forall i :: |value| <= i < k ==> IsSpace(raw[i])
  {
    CommentFrom(raw, 0);
  }

  // ---------------------------------------------------------------- assignments

  /** Line i assigns the entry, and no later one assigns to its key. */
  predicate Stands(parsed: seq<Parsed>, k: nat, i: nat, e: Entry)
    requires k <= |parsed|
  {
    && i < k && parsed[i] == Assignment(e)
    && forall j :: i < j < k && parsed[j].Assignment? ==> parsed[j].entry.key != e.key
  }

  ghost predicate Assigned(parsed: seq<Parsed>, k: nat, e: Entry)
    requires k <= |parsed|
  {
    exists i: nat :: Stands(parsed, k, i, e)
  }

  lemma {:induction false} PutIs(d: Dict, e: Entry, x: Entry)
    requires KeysDistinct(d)
    ensures x in Put(d, e) <==> x == e || (x in d && x.key != e.key)
  {
    if d != [] {
      assert forall i, j :: 0 <= i < j < |d[1..]| ==> d[1..][i] == d[i + 1] && d[1..][j] == d[j + 1];
      PutIs(d[1..], e, x);
      assert x in d <==> x == d[0] || x in d[1..];
      if d[0].key == e.key && x in d[1..] {
        var i :| 0 <= i < |d[1..]| && d[1..][i] == x;
        assert d[0].key != d[i + 1].key;
      }
    }
  }

  lemma {:induction false} PutKeeps(d: Dict, e: Entry)
    requires KeysDistinct(d)
    ensures KeysDistinct(Put(d, e))
  {
    if d != [] && d[0].key != e.key {
      assert forall i, j :: 0 <= i < j < |d[1..]| ==> d[1..][i] == d[i + 1] && d[1..][j] == d[j + 1];
      PutKeeps(d[1..], e);
      var put := Put(d[1..], e);
      forall j | 0 <= j < |put|
        ensures put[j].key != d[0].key
      {
        PutIs(d[1..], e, put[j]);
      }
    }
  }

  /** Parsing fails if and only if a line is malformed; otherwise exactly the last assignment to each key stands. */
  lemma {:induction false} AssignmentsDecide(parsed: seq<Parsed>, k: nat)
    requires k <= |parsed|
    ensures var d := Fold(parsed, k);
            && (d.None? <==> exists i :: 0 <= i < k && parsed[i].Malformed?)
            && (d.Some? ==> KeysDistinct(d.value) && forall e :: e in d.value <==> Assigned(parsed, k, e))
  {
    if k > 0 {
      AssignmentsDecide(parsed, k - 1);
      var d := Fold(parsed, k - 1);
      if d.Some? && !parsed[k - 1].Malformed? {
        if parsed[k - 1].Assignment? { PutKeeps(d.value, parsed[k - 1].entry); }
        forall e
          ensures e in Fold(parsed, k).value <==> Assigned(parsed, k, e)
        {
          AssignedNext(parsed, k, e);
          if parsed[k - 1].Assignment? { PutIs(d.value, parsed[k - 1].entry, e); }
        }
      }
    }
  }

  lemma AssignedNext(parsed: seq<Parsed>, k: nat, e: Entry)
    requires 0 < k <= |parsed|
    ensures Assigned(parsed, k, e) <==>
              parsed[k - 1] == Assignment(e)
              || (Assigned(parsed, k - 1, e) && (parsed[k - 1].Assignment? ==> parsed[k - 1].entry.key != e.key))
  {
    if Assigned(parsed, k, e) {
      var i: nat :| Stands(parsed, k, i, e);
      if i < k - 1 { assert Stands(parsed, k - 1, i, e); }
    }
    if parsed[k - 1] == Assignment(e) {
      assert Stands(parsed, k, k - 1, e);
    } else if Assigned(parsed, k - 1, e) && (parsed[k - 1].Assignment? ==> parsed[k - 1].entry.key != e.key) {
      var i: nat :| Stands(parsed, k - 1, i, e);
      assert Stands(parsed, k, i, e);
    }
  }
}
