/** Robots rules, the verdict of a snapshot on a path, and the group parser that selects the rules. */
module RobotsVerdict {
  import opened Seqs
  import opened RobotsOctets
  import opened RobotsMatcher

  datatype Rule = Rule(allow: bool, pattern: string)

  // ---------------------------------------------------------------- one rule

  /** The pattern without its final anchor, and whether it had one. */
  function Unanchored(p: string): (string, bool) {
    if p != "" && p[|p| - 1] == '$' then (p[..|p| - 1], true) else (p, false)
  }

  function WithoutStars(p: string): string {
    if p == "" then "" else (if p[0] == '*' then "" else [p[0]]) + WithoutStars(p[1..])
  }

  /** A rule with its pattern normalised, its anchor split off and its specificity counted. */
  datatype Compiled = Compiled(allow: bool, body: string, anchored: bool, specificity: nat)

  datatype Answer<T> = Ok(value: T) | Raised

  /** Specificity counts the octets that are not wildcards; normalised text has one octet a character. */
  function Compile(rule: Rule): Answer<Compiled> {
    var normal := Normalise(rule.pattern);
    if normal.ValueError? then Raised
    else
      var (body, anchored) := Unanchored(normal.value);
      Ok(Compiled(rule.allow, body, anchored, |WithoutStars(body)|))
  }

  predicate EndsInDollar(n: string) {
    n != "" && n[|n| - 1] == '$'
  }

  /** The positions of a normalised pattern that hold no wildcard, without a final dollar sign. */
  function Literals(n: string): set<nat> {
    set i: nat | i < |n| && n[i] != '*' && !(i == |n| - 1 && n[i] == '$')
  }

  function Unstarred(n: string, k: nat): set<nat>
    requires k <= |n|
  {
    set i: nat | i < k && n[i] != '*'
  }

  lemma {:induction false} WithoutStarsCounts(n: string, k: nat)
    requires k <= |n|
    ensures |WithoutStars(n[..k])| == |Unstarred(n, k)|
  {
    if k > 0 {
      WithoutStarsCounts(n, k - 1);
      WithoutStarsSnoc(n[..k - 1], n[k - 1]);
      assert n[..k] == n[..k - 1] + [n[k - 1]];
      assert Unstarred(n, k) == Unstarred(n, k - 1) + if n[k - 1] != '*' then {k - 1} else {};
    }
  }

  lemma {:induction false} WithoutStarsSnoc(s: string, c: char)
    ensures WithoutStars(s + [c]) == WithoutStars(s) + if c == '*' then "" else [c]
  {
    if s == "" {
      assert [c][1..] == "";
    } else {
      WithoutStarsSnoc(s[1..], c);
      assert (s + [c])[1..] == s[1..] + [c];
    }
  }

  /** What is compiled of a pattern: its literal positions are counted, and a final dollar sign anchors the rest. */
  lemma CompileCounts(rule: Rule)
    ensures Compile(rule).Ok? <==> Normalise(rule.pattern).Normal?
    ensures Compile(rule).Ok? ==>
              var n, c := Normalise(rule.pattern).value, Compile(rule).value;
              && c.allow == rule.allow && c.specificity == |Literals(n)|
              && c.anchored == EndsInDollar(n) && c.body == (if EndsInDollar(n) then n[..|n| - 1] else n)
  {
    var normal := Normalise(rule.pattern);
    if normal.Normal? {
      var n := normal.value;
      var k := if EndsInDollar(n) then |n| - 1 else |n|;
      WithoutStarsCounts(n, k);
      assert n[..|n|] == n;
      assert Literals(n) == Unstarred(n, k);
    }
  }

  /** Whether the loop says that the rule matches a normalised target. */
  predicate Applies(c: Compiled, target: string) {
    Run(c.body, c.anchored, target, START)
  }

  /** Whether the rule's pattern denotes the target. */
  ghost predicate Covers(c: Compiled, target: string) {
    Denotes(c.body, c.anchored, target)
  }

  method Matches(rule: Rule, target: string) returns (r: Answer<bool>)
    ensures r == var c := Compile(rule); if c.Ok? then Ok(Applies(c.value, target)) else Raised
  {
    var normal := NormalizeOctets(rule.pattern);
    if normal.ValueError? {
      return Raised;
    }
    var pattern := normal.value;
    var anchored := pattern != "" && pattern[|pattern| - 1] == '$';
    if anchored {
      pattern := pattern[..|pattern| - 1];
    }
    var matched := MatchLoop(pattern, anchored, target);
    return Ok(matched);
  }

  // ---------------------------------------------------------------- the verdict

  datatype State = Available | Unavailable | Unreachable

  /** The matching rules among the first k. */
  function Matching(rules: seq<Compiled>, target: string, k: nat): seq<Compiled>
    requires k <= |rules|
  {
    if k == 0 then []
    else Matching(rules, target, k - 1) + (if Applies(rules[k - 1], target) then [rules[k - 1]] else [])
  }

  lemma {:induction false} MatchingMembers(rules: seq<Compiled>, target: string, k: nat)
    requires k <= |rules|
    ensures forall c :: c in Matching(rules, target, k) <==> c in rules[..k] && Applies(c, target)
  {
    if k == 0 {
      assert rules[..0] == [];
    } else {
      MatchingMembers(rules, target, k - 1);
      var before, here := Matching(rules, target, k - 1), rules[k - 1];
      assert rules[..k] == rules[..k - 1] + [here];
      forall c
        ensures c in Matching(rules, target, k) <==> c in rules[..k] && Applies(c, target)
      {
        assert c in rules[..k] <==> c in rules[..k - 1] || c == here;
        assert c in before + [here] <==> c in before || c == here;
        assert c in before + [] <==> c in before;
      }
    }
  }

  /** The greatest specificity among the first k matches. */
  function Longest(matches: seq<Compiled>, k: nat): nat
    requires 0 < k <= |matches|
  {
    var here := matches[k - 1].specificity;
    if k == 1 then here
    else
      var before := Longest(matches, k - 1);
      if here > before then here else before
  }

  lemma {:induction false} LongestIsMaximum(matches: seq<Compiled>, k: nat)
    requires 0 < k <= |matches|
    ensures forall i :: 0 <= i < k ==> matches[i].specificity <= Longest(matches, k)
    ensures exists i :: 0 <= i < k && matches[i].specificity == Longest(matches, k)
  {
    var here := matches[k - 1];
    assert here.specificity <= Longest(matches, k);
    if k > 1 { LongestIsMaximum(matches, k - 1); }
  }

  /** The verdict on a normalised target. */
  predicate Verdict(rules: seq<Compiled>, target: string) {
    var matches := Matching(rules, target, |rules|);
    matches == []
    || exists i :: 0 <= i < |matches| && matches[i].allow && matches[i].specificity == Longest(matches, |matches|)
  }

  function Compiles(rules: seq<Rule>): (answers: seq<Answer<Compiled>>) {
    seq(|rules|, i requires 0 <= i < |rules| => Compile(rules[i]))
  }

  /** All of the first k values, or the error of one of them. */
  function Collect<T>(answers: seq<Answer<T>>, k: nat): (r: Answer<seq<T>>)
    requires k <= |answers|
    ensures r.Ok? ==> |r.value| == k
  {
    if k == 0 then Ok([])
    else
      var before, here := Collect(answers, k - 1), answers[k - 1];
      if before.Raised? || here.Raised? then Raised else Ok(before.value + [here.value])
  }

  /** All rules compiled, or the error of one of them. */
  function CompileAll(rules: seq<Rule>): (r: Answer<seq<Compiled>>) {
    Collect(Compiles(rules), |rules|)
  }

  /** The verdict on a path and query, as the snapshot computes it. */
  function Allows(state: State, rules: seq<Rule>, pathQuery: string): Answer<bool> {
    if state == Unavailable then Ok(true)
    else if state == Unreachable then Ok(false)
    else
      var normal, compiled := Normalise(pathQuery), CompileAll(rules);
      if normal.ValueError? || compiled.Raised? then Raised else Ok(Verdict(compiled.value, normal.value))
  }

  /** Among the rules that hold, an allowing rule as specific as any other; or no rule at all. */
  ghost predicate Permitted(rules: set<Compiled>, target: string) {
    || (forall c :: c in rules ==> !Covers(c, target))
    || exists c :: c in rules && c.allow && Covers(c, target) && MostSpecific(rules, target, c)
  }

  ghost predicate MostSpecific(rules: set<Compiled>, target: string, c: Compiled) {
    forall d :: d in rules && Covers(d, target) ==> d.specificity <= c.specificity
  }

  lemma AppliesSound(c: Compiled, target: string)
    ensures Applies(c, target) ==> Covers(c, target)
    ensures StarFreeFront(target) && Covers(c, target) ==> Applies(c, target)
  {
    if Applies(c, target) { MatchSound(c.body, c.anchored, target); }
    if StarFreeFront(target) && Covers(c, target) { MatchComplete(c.body, c.anchored, target); }
  }

  lemma {:induction false} MatchesAreCovering(rules: seq<Compiled>, target: string)
    requires StarFreeFront(target)
    ensures forall c :: c in Matching(rules, target, |rules|) <==> c in rules && Covers(c, target)
  {
    MatchingMembers(rules, target, |rules|);
    Units(rules);
    forall c | c in rules
      ensures Applies(c, target) <==> Covers(c, target)
    {
      AppliesSound(c, target);
    }
  }

  /** The covering rules among the matches, and their greatest specificity. */
  lemma {:induction false} MatchesAndLongest(rules: seq<Compiled>, target: string)
    requires StarFreeFront(target) && Matching(rules, target, |rules|) != []
    ensures var matches := Matching(rules, target, |rules|);
            var n := Longest(matches, |matches|);
            && (forall c :: c in rules && Covers(c, target) ==> c in matches && c.specificity <= n)
            && (exists c :: c in rules && Covers(c, target) && c.specificity == n)
            && (forall i :: 0 <= i < |matches| ==> matches[i] in rules && Covers(matches[i], target))
  {
    var matches := Matching(rules, target, |rules|);
    MatchesAreCovering(rules, target);
    LongestIsMaximum(matches, |matches|);
    assert forall i :: 0 <= i < |matches| ==> matches[i] in matches;
    assert forall c :: c in matches ==> exists i :: 0 <= i < |matches| && matches[i] == c;
  }

  /**
   The most specific matching rule decides, an allowing rule wins a tie, and no match allows (section
   2.2.2 of RFC 9309). The verdict depends on the set of rules only, never on their order.
   */
  lemma MostSpecificRuleDecides(rules: seq<Compiled>, target: string)
    requires StarFreeFront(target)
    ensures Verdict(rules, target) <==> Permitted((set c | c in rules), target)
  {
    var matches := Matching(rules, target, |rules|);
    if matches == [] {
      MatchesAreCovering(rules, target);
      assert forall c :: c in rules ==> c !in matches;
    } else {
      MatchesAndLongest(rules, target);
      if Permitted((set c | c in rules), target) {
        var all := set c | c in rules;
        var c :| c in all && c.allow && Covers(c, target) && MostSpecific(all, target, c);
        var i :| 0 <= i < |matches| && matches[i] == c;
        assert matches[i].allow && matches[i].specificity == Longest(matches, |matches|);
      }
    }
  }

  /** On every target, an unfavourable verdict is backed by a disallowing rule that denotes it. */
  lemma VerdictIsBacked(rules: seq<Compiled>, target: string)
    requires !Verdict(rules, target)
    ensures exists c :: c in rules && !c.allow && Covers(c, target)
  {
    var matches := Matching(rules, target, |rules|);
    LongestIsMaximum(matches, |matches|);
    var i :| 0 <= i < |matches| && matches[i].specificity == Longest(matches, |matches|);
    MatchingMembers(rules, target, |rules|);
    Units(rules);
    assert matches[i] in matches;
    AppliesSound(matches[i], target);
  }

  // ---------------------------------------------------------------- the snapshot

  /** Every pattern of the rules can be normalised. */
  predicate AllCompile(rules: seq<Rule>) {
    forall i :: 0 <= i < |rules| ==> Normalise(rules[i].pattern).Normal?
  }

  /** A rule whose pattern, normalised, denotes the target: all of it if the pattern ends in a dollar sign. */
  ghost predicate Holds(rule: Rule, target: string) {
    var normal := Normalise(rule.pattern);
    && normal.Normal?
    && var n := normal.value;
       if EndsInDollar(n) then Denotes(n[..|n| - 1], true, target) else Denotes(n, false, target)
  }

  function Specificity(rule: Rule): nat
    requires Normalise(rule.pattern).Normal?
  {
    |Literals(Normalise(rule.pattern).value)|
  }

  ghost predicate AsSpecificAsAny(rules: seq<Rule>, target: string, i: nat)
    requires i < |rules| && AllCompile(rules)
  {
    forall k :: 0 <= k < |rules| && Holds(rules[k], target) ==> Specificity(rules[k]) <= Specificity(rules[i])
  }

  /** No rule holds, or an allowing one holds that is as specific as any that does. */
  ghost predicate Permits(rules: seq<Rule>, target: string)
    requires AllCompile(rules)
  {
    || (forall i :: 0 <= i < |rules| ==> !Holds(rules[i], target))
    || exists i :: 0 <= i < |rules| && rules[i].allow && Holds(rules[i], target) && AsSpecificAsAny(rules, target, i)
  }

  lemma {:induction false} CollectEach<T>(answers: seq<Answer<T>>, k: nat)
    requires k <= |answers|
    ensures Collect(answers, k).Ok? <==> forall i :: 0 <= i < k ==> answers[i].Ok?
    ensures Collect(answers, k).Ok? ==> forall i :: 0 <= i < k ==> answers[i].value == Collect(answers, k).value[i]
  {
    if k > 0 { CollectEach(answers, k - 1); }
  }

  lemma CompileAllEach(rules: seq<Rule>)
    ensures CompileAll(rules).Ok? <==> forall i :: 0 <= i < |rules| ==> Compile(rules[i]).Ok?
    ensures CompileAll(rules).Ok? ==>
              && |CompileAll(rules).value| == |rules|
              && forall i :: 0 <= i < |rules| ==> Compile(rules[i]).value == CompileAll(rules).value[i]
  {
    var answers := Compiles(rules);
    CollectEach(answers, |rules|);
    assert forall i :: 0 <= i < |rules| ==> answers[i] == Compile(rules[i]);
  }

  lemma CompiledIffNormal(rules: seq<Rule>)
    ensures AllCompile(rules) <==> forall i :: 0 <= i < |rules| ==> Compile(rules[i]).Ok?
  {
    forall i | 0 <= i < |rules|
      ensures Compile(rules[i]).Ok? <==> Normalise(rules[i].pattern).Normal?
    {
      CompileCounts(rules[i]);
    }
  }

  lemma CompiledEach(rules: seq<Rule>, compiled: seq<Compiled>, target: string)
    requires CompileAll(rules) == Ok(compiled)
    ensures AllCompile(rules) && |compiled| == |rules|
    ensures forall i :: 0 <= i < |rules| ==>
              && compiled[i].allow == rules[i].allow && compiled[i].specificity == Specificity(rules[i])
              && (Covers(compiled[i], target) <==> Holds(rules[i], target))
  {
    CompileAllEach(rules);
    forall i | 0 <= i < |rules|
      ensures Normalise(rules[i].pattern).Normal?
      ensures compiled[i].allow == rules[i].allow && compiled[i].specificity == Specificity(rules[i])
      ensures Covers(compiled[i], target) <==> Holds(rules[i], target)
    {
      CompileCounts(rules[i]);
    }
  }

  lemma PermittedGivesPermits(rules: seq<Rule>, compiled: seq<Compiled>, target: string, c: Compiled)
    requires CompileAll(rules) == Ok(compiled) && c in compiled && c.allow && Covers(c, target)
    requires MostSpecific((set d | d in compiled), target, c)
    ensures AllCompile(rules) && Permits(rules, target)
  {
    CompiledEach(rules, compiled, target);
    var i :| 0 <= i < |compiled| && compiled[i] == c;
    forall k | 0 <= k < |rules| && Holds(rules[k], target)
      ensures Specificity(rules[k]) <= Specificity(rules[i])
    {
      assert compiled[k] in compiled && Covers(compiled[k], target);
    }
    assert AsSpecificAsAny(rules, target, i);
  }

  lemma PermitsGivesPermitted(rules: seq<Rule>, compiled: seq<Compiled>, target: string, i: nat)
    requires CompileAll(rules) == Ok(compiled) && AllCompile(rules)
    requires i < |rules| && rules[i].allow && Holds(rules[i], target) && AsSpecificAsAny(rules, target, i)
    ensures Permitted((set c | c in compiled), target)
  {
    CompiledEach(rules, compiled, target);
    var all := set c | c in compiled;
    assert compiled[i] in all && Covers(compiled[i], target);
    forall d | d in all && Covers(d, target)
      ensures d.specificity <= compiled[i].specificity
    {
      var k :| 0 <= k < |compiled| && compiled[k] == d;
    }
    assert MostSpecific(all, target, compiled[i]);
  }

  lemma NoneCovers(rules: seq<Rule>, compiled: seq<Compiled>, target: string)
    requires CompileAll(rules) == Ok(compiled)
    ensures (forall c :: c in compiled ==> !Covers(c, target))
       <==> (forall i :: 0 <= i < |rules| ==> !Holds(rules[i], target))
  {
    CompiledEach(rules, compiled, target);
    assert forall i :: 0 <= i < |rules| ==> compiled[i] in compiled;
  }

  /** What holds of the compiled rules as a set holds of the rules in their list. */
  lemma PermittedIsPermits(rules: seq<Rule>, compiled: seq<Compiled>, target: string)
    requires CompileAll(rules) == Ok(compiled)
    ensures AllCompile(rules) && (Permitted((set c | c in compiled), target) <==> Permits(rules, target))
  {
    CompiledEach(rules, compiled, target);
    NoneCovers(rules, compiled, target);
    var all := set c | c in compiled;
    if c :| c in all && c.allow && Covers(c, target) && MostSpecific(all, target, c) {
      PermittedGivesPermits(rules, compiled, target, c);
    }
    if i :| 0 <= i < |rules| && rules[i].allow && Holds(rules[i], target) && AsSpecificAsAny(rules, target, i) {
      PermitsGivesPermitted(rules, compiled, target, i);
    }
  }

  /**
   What a snapshot answers for a path and query. Without a robots file everything is allowed, with an unreachable
   one nothing; otherwise a negative literal in the path or in any pattern is an error, and on a target where the
   loop decides, the rules that hold with the most literal characters decide.
   */
  lemma AllowsDecides(state: State, rules: seq<Rule>, pathQuery: string)
    ensures state == Unavailable ==> Allows(state, rules, pathQuery) == Ok(true)
    ensures state == Unreachable ==> Allows(state, rules, pathQuery) == Ok(false)
    ensures state == Available ==>
              (Allows(state, rules, pathQuery).Ok? <==> Normalise(pathQuery).Normal? && AllCompile(rules))
    ensures state == Available && Normalise(pathQuery).Normal? && AllCompile(rules) ==>
              var target := Normalise(pathQuery).value;
              StarFreeFront(target) ==> Allows(state, rules, pathQuery) == Ok(Permits(rules, target))
  {
    if state == Available {
      CompileAllEach(rules);
      CompiledIffNormal(rules);
      var normal, compiled := Normalise(pathQuery), CompileAll(rules);
      if normal.Normal? && compiled.Ok? && StarFreeFront(normal.value) {
        MostSpecificRuleDecides(compiled.value, normal.value);
        PermittedIsPermits(rules, compiled.value, normal.value);
      }
    }
  }

  /** Whatever the path, a refusal comes from an unreachable file or from a disallowing rule that holds. */
  lemma RefusalIsBacked(state: State, rules: seq<Rule>, pathQuery: string)
    requires Allows(state, rules, pathQuery) == Ok(false)
    ensures state == Unreachable
         || (state == Available && Normalise(pathQuery).Normal?
             && exists i :: 0 <= i < |rules| && !rules[i].allow && Holds(rules[i], Normalise(pathQuery).value))
  {
    if state == Available {
      var compiled, target := CompileAll(rules).value, Normalise(pathQuery).value;
      VerdictIsBacked(compiled, target);
      CompiledEach(rules, compiled, target);
      var c :| c in compiled && !c.allow && Covers(c, target);
      var i :| 0 <= i < |compiled| && compiled[i] == c;
      assert Holds(rules[i], target);
    }
  }

  // ---------------------------------------------------------------- groups

  /** One parsed line, its field name folded and its value stripped. */
  datatype Directive =
    | UserAgent(agent: string)
    | RuleLine(rule: Rule)
    | CrawlDelay(delay: real)
    | Other

  datatype Group = Group(agents: seq<string>, rules: seq<Rule>, delays: seq<real>)

  /** Lines that leave no trace in a group: no value, no group yet, a delay out of range, other fields. */
  predicate Recorded(d: Directive) {
    match d
    case UserAgent(agent) => false
    case RuleLine(rule) => rule.pattern != ""
    case CrawlDelay(delay) => 0.0 <= delay <= 86400.0
    case Other => false
  }

  predicate NamesAgent(d: Directive) {
    d.UserAgent? && d.agent != ""
  }

  /** The parser's state: the groups so far, the last of which is the current one. */
  class RobotsParser {
    var groups: seq<Group>

    constructor ()
      ensures groups == []
    {
      groups := [];
    }

    method AddAgent(agent: string)
      modifies this
      ensures groups == WithAgent(old(groups), agent)
    {
      if groups == [] || groups[|groups| - 1].rules != [] || groups[|groups| - 1].delays != [] {
        groups := groups + [Group([], [], [])];
      }
      var current := groups[|groups| - 1];
      Units([agent]);
      groups := groups[|groups| - 1 := current.(agents := current.agents + [agent])];
      assert groups == WithAgent(old(groups), agent);
    }

    method AddGroupDirective(d: Directive)
      requires !d.UserAgent?
      modifies this
      ensures groups == WithLine(old(groups), d)
    {
      if groups == [] || groups[|groups| - 1].agents == [] {
        return;
      }
      var current := groups[|groups| - 1];
      if d.RuleLine? {
        if d.rule.pattern != "" {
          groups := groups[|groups| - 1 := current.(rules := current.rules + [d.rule])];
        }
        return;
      }
      if d.CrawlDelay? {
        if 0.0 <= d.delay <= 86400.0 {
          groups := groups[|groups| - 1 := current.(delays := current.delays + [d.delay])];
        }
      }
    }

    method Parse(directives: seq<Directive>)
      requires groups == []
      modifies this
      ensures groups == GroupsOf(directives, |directives|)
    {
      for i := 0 to |directives|
        invariant groups == GroupsOf(directives, i)
      {
        var d := directives[i];
        if d.UserAgent? && d.agent != "" {
          AddAgent(d.agent);
        } else if !d.UserAgent? {
          AddGroupDirective(d);
        }
      }
    }
  }

  function WithAgent(groups: seq<Group>, agent: string): seq<Group> {
    if groups == [] || groups[|groups| - 1].rules != [] || groups[|groups| - 1].delays != [] then
      groups + [Group([agent], [], [])]
    else
      var current := groups[|groups| - 1];
      groups[|groups| - 1 := current.(agents := current.agents + [agent])]
  }

  function WithRecord(groups: seq<Group>, d: Directive): seq<Group>
    requires Recorded(d)
  {
    if groups == [] || groups[|groups| - 1].agents == [] then groups
    else
      var current := groups[|groups| - 1];
      groups[|groups| - 1 :=
        if d.RuleLine? then current.(rules := current.rules + [d.rule])
        else current.(delays := current.delays + [d.delay])]
  }

  function WithLine(groups: seq<Group>, d: Directive): seq<Group> {
    if NamesAgent(d) then WithAgent(groups, d.agent)
    else if Recorded(d) then WithRecord(groups, d)
    else groups
  }

  /** The groups after the first k lines. */
  function GroupsOf(directives: seq<Directive>, k: nat): seq<Group>
    requires k <= |directives|
  {
    if k == 0 then []
    else
      var d := directives[k - 1];
      WithLine(GroupsOf(directives, k - 1), d)
  }

  predicate Names(g: Group, token: string) {
    exists i :: 0 <= i < |g.agents| && g.agents[i] == token
  }

  predicate SomeNames(groups: seq<Group>, token: string) {
    exists i :: 0 <= i < |groups| && Names(groups[i], token)
  }

  /** What one group contributes for a token. */
  function Contribution(g: Group, token: string): seq<Rule> {
    if Names(g, token) then g.rules else []
  }

  /** The rules of every group that names the token, in order. */
  function RulesNaming(groups: seq<Group>, token: string, k: nat): seq<Rule>
    requires k <= |groups|
  {
    if k == 0 then [] else RulesNaming(groups, token, k - 1) + Contribution(groups[k - 1], token)
  }

  /** The selected rules: those of the groups naming the agent, or of the star groups if there is none. */
  function SelectedRules(groups: seq<Group>, agent: string): seq<Rule> {
    if agent != "*" && SomeNames(groups, agent) then
      RulesNaming(groups, agent, |groups|)
    else RulesNaming(groups, "*", |groups|)
  }

  // ---------------------------------------------------------------- which agents a line speaks to

  /** Which lines close a block of user-agent lines: as the parser has it, and as section 2.2 of RFC 9309 has it. */
  datatype Reading = Coded | Standard

  /**
   To the parser, what it records closes a block: rules with a value, delays in range. In the standard's grammar
   every rule line does, its value may be empty, and no other record interferes with the grouping.
   */
  predicate Closes(reading: Reading, d: Directive) {
    match reading
    case Coded => Recorded(d)
    case Standard => d.RuleLine?
  }

  /** The agents that line k speaks to: those of the nearest block of user-agent lines before it. */
  function AgentsAt(reading: Reading, directives: seq<Directive>, k: nat): seq<string>
    requires k <= |directives|
  {
    if k == 0 then []
    else
      var d := directives[k - 1];
      if !NamesAgent(d) then AgentsAt(reading, directives, k - 1)
      else (if BlockOpen(reading, directives, k - 1) then AgentsAt(reading, directives, k - 1) else []) + [d.agent]
  }

  /** No closing line since the last user-agent line. */
  predicate BlockOpen(reading: Reading, directives: seq<Directive>, k: nat)
    requires k <= |directives|
  {
    if k == 0 then true
    else
      var d := directives[k - 1];
      if NamesAgent(d) then true
      else if Closes(reading, d) && AgentsAt(reading, directives, k - 1) != [] then false
      else BlockOpen(reading, directives, k - 1)
  }

  /** The rules of the first k lines that speak to a token, line by line. */
  function RulesFor(reading: Reading, directives: seq<Directive>, token: string, k: nat): seq<Rule>
    requires k <= |directives|
  {
    if k == 0 then []
    else
      var d := directives[k - 1];
      RulesFor(reading, directives, token, k - 1) +
        (if SpeaksTo(reading, directives, token, k - 1) then [d.rule] else [])
  }

  /** Line j is a rule with a value that speaks to the token. */
  predicate SpeaksTo(reading: Reading, directives: seq<Directive>, token: string, j: nat)
    requires j < |directives|
  {
    ValuedRule(directives[j]) && token in AgentsAt(reading, directives, j)
  }

  predicate ValuedRule(d: Directive) {
    d.RuleLine? && Recorded(d)
  }

  /** The current group holds the agents of the open block, and is closed exactly when it has a record. */
  lemma {:induction false} CurrentGroup(directives: seq<Directive>, k: nat)
    requires k <= |directives|
    ensures var groups := GroupsOf(directives, k);
            && (groups == [] <==> AgentsAt(Coded, directives, k) == [])
            && (groups == [] ==> BlockOpen(Coded, directives, k))
            && (groups != [] ==>
                  var current := groups[|groups| - 1];
                  && current.agents == AgentsAt(Coded, directives, k)
                  && (BlockOpen(Coded, directives, k) <==> current.rules == [] && current.delays == []))
  {
    if k > 0 { CurrentGroup(directives, k - 1); }
  }

  lemma {:induction false} RulesNamingPrefix(g: seq<Group>, h: seq<Group>, token: string, k: nat)
    requires k <= |g| && k <= |h| && forall i :: 0 <= i < k ==> g[i] == h[i]
    ensures RulesNaming(g, token, k) == RulesNaming(h, token, k)
  {
    if k > 0 { RulesNamingPrefix(g, h, token, k - 1); }
  }

  lemma {:induction false} RulesNamingPush(groups: seq<Group>, g: Group, token: string)
    ensures RulesNaming(groups + [g], token, |groups| + 1)
         == RulesNaming(groups, token, |groups|) + Contribution(g, token)
  {
    RulesNamingPrefix(groups, groups + [g], token, |groups|);
  }

  lemma {:induction false} RulesNamingReplace(groups: seq<Group>, g: Group, token: string)
    requires groups != []
    ensures RulesNaming(groups[|groups| - 1 := g], token, |groups|)
         == RulesNaming(groups, token, |groups| - 1) + Contribution(g, token)
  {
    var n := |groups| - 1;
    var after := groups[n := g];
    RulesNamingPrefix(groups, after, token, n);
    assert after[n] == g && RulesNaming(after, token, n + 1) == RulesNaming(after, token, n) + Contribution(g, token);
  }

  /** Naming an agent adds no rule. */
  lemma {:induction false} AgentAddsNoRule(groups: seq<Group>, agent: string, token: string)
    ensures var after := WithAgent(groups, agent);
            RulesNaming(after, token, |after|) == RulesNaming(groups, token, |groups|)
  {
    Units(RulesNaming(groups, token, |groups|));
    var after := WithAgent(groups, agent);
    if |after| == |groups| + 1 {
      RulesNamingPush(groups, Group([agent], [], []), token);
    } else {
      RulesNamingReplace(groups, after[|groups| - 1], token);
      assert Contribution(after[|groups| - 1], token) == Contribution(groups[|groups| - 1], token) == [];
    }
  }

  /** A recorded line adds its rule for exactly the agents of the current group. */
  lemma {:induction false} RecordAddsRule(groups: seq<Group>, d: Directive, token: string)
    requires Recorded(d) && groups != [] && groups[|groups| - 1].agents != []
    ensures var after := WithRecord(groups, d);
            RulesNaming(after, token, |after|) ==
              RulesNaming(groups, token, |groups|)
                + (if d.RuleLine? && token in groups[|groups| - 1].agents then [d.rule] else [])
  {
    var n := |groups| - 1;
    var last, next := groups[n], WithRecord(groups, d)[n];
    RulesNamingReplace(groups, next, token);
    assert Names(next, token) <==> Names(last, token);
    assert Names(last, token) <==> token in last.agents;
    Units(RulesNaming(groups, token, n + 1));
    if d.RuleLine? && Names(last, token) {
      Assoc(RulesNaming(groups, token, n), last.rules, [d.rule]);
    }
  }

  /** Group by group, the parser collects exactly the rules that line by line speak to the token. */
  lemma {:induction false} GroupsCollectRules(directives: seq<Directive>, token: string, k: nat)
    requires k <= |directives|
    ensures var groups := GroupsOf(directives, k);
            RulesNaming(groups, token, |groups|) == RulesFor(Coded, directives, token, k)
  {
    if k > 0 {
      var d := directives[k - 1];
      var before := GroupsOf(directives, k - 1);
      GroupsCollectRules(directives, token, k - 1);
      CurrentGroup(directives, k - 1);
      LineAddsRule(before, d, AgentsAt(Coded, directives, k - 1), token);
    }
  }

  /** A line adds its rule for exactly the agents of the current group. */
  lemma {:induction false} LineAddsRule(before: seq<Group>, d: Directive, agents: seq<string>, token: string)
    requires if before == [] then agents == [] else agents == before[|before| - 1].agents != []
    ensures var after := WithLine(before, d);
            RulesNaming(after, token, |after|) ==
              RulesNaming(before, token, |before|) + (if ValuedRule(d) && token in agents then [d.rule] else [])
  {
    Units(RulesNaming(before, token, |before|));
    if NamesAgent(d) {
      AgentAddsNoRule(before, d.agent, token);
    } else if Recorded(d) && before != [] {
      RecordAddsRule(before, d, token);
    }
  }

  /** Some line of the file names the token. */
  ghost predicate Mentioned(directives: seq<Directive>, token: string, k: nat)
    requires k <= |directives|
  {
    exists i :: 0 <= i < k && NamesAgent(directives[i]) && directives[i].agent == token
  }

  lemma {:induction false} NamedIffMentioned(directives: seq<Directive>, token: string, k: nat)
    requires k <= |directives|
    ensures SomeNames(GroupsOf(directives, k), token) <==> Mentioned(directives, token, k)
  {
    if k > 0 {
      var d := directives[k - 1];
      var before, after := GroupsOf(directives, k - 1), GroupsOf(directives, k);
      NamedIffMentioned(directives, token, k - 1);
      NamesKept(before, after, d, token);
      assert Mentioned(directives, token, k) <==>
             Mentioned(directives, token, k - 1) || (NamesAgent(d) && d.agent == token);
    }
  }

  lemma NamesKept(before: seq<Group>, after: seq<Group>, d: Directive, token: string)
    requires after == WithLine(before, d)
    ensures SomeNames(after, token) <==> SomeNames(before, token) || (NamesAgent(d) && d.agent == token)
  {
    if SomeNames(before, token) { StillNamed(before, after, d, token); }
    if NamesAgent(d) {
      var last := after[|after| - 1];
      assert last.agents[|last.agents| - 1] == d.agent;
      assert d.agent == token ==> Names(last, token);
    }
    if SomeNames(after, token) { NamedBefore(before, after, d, token); }
  }

  lemma StillNamed(before: seq<Group>, after: seq<Group>, d: Directive, token: string)
    requires after == WithLine(before, d) && SomeNames(before, token)
    ensures SomeNames(after, token)
  {
    var i :| 0 <= i < |before| && Names(before[i], token);
    var j :| 0 <= j < |before[i].agents| && before[i].agents[j] == token;
    assert after[i].agents[j] == token;
    assert Names(after[i], token);
  }

  lemma NamedBefore(before: seq<Group>, after: seq<Group>, d: Directive, token: string)
    requires after == WithLine(before, d) && SomeNames(after, token)
    ensures SomeNames(before, token) || (NamesAgent(d) && d.agent == token)
  {
    var i :| 0 <= i < |after| && Names(after[i], token);
    var j :| 0 <= j < |after[i].agents| && after[i].agents[j] == token;
    if i < |before| && j < |before[i].agents| {
      assert before[i].agents[j] == token;
      assert Names(before[i], token);
    }
  }

  /** The rules selected for an agent, read off the lines: its own if any line names it, else the star's. */
  lemma {:induction false} SelectionByLines(directives: seq<Directive>, agent: string)
    ensures var groups := GroupsOf(directives, |directives|);
            SelectedRules(groups, agent) ==
              if agent != "*" && Mentioned(directives, agent, |directives|)
              then RulesFor(Coded, directives, agent, |directives|)
              else RulesFor(Coded, directives, "*", |directives|)
  {
    GroupsCollectRules(directives, agent, |directives|);
    GroupsCollectRules(directives, "*", |directives|);
    NamedIffMentioned(directives, agent, |directives|);
  }

  // ---------------------------------------------------------------- the parser against the standard

  /** The last user-agent line before k. */
  function LastAgent(directives: seq<Directive>, k: nat): (l: nat)
    requires k <= |directives|
    ensures l <= k
    ensures l < k ==> NamesAgent(directives[l]) && forall m :: l < m < k ==> !NamesAgent(directives[m])
    ensures l == k ==> forall m :: 0 <= m < k ==> !NamesAgent(directives[m])
  {
    if k == 0 then 0
    else if NamesAgent(directives[k - 1]) then k - 1
    else
      var l := LastAgent(directives, k - 1);
      if l == k - 1 then k else l
  }

  /** Some line strictly between i and l closes a block. */
  predicate ClosedBetween(reading: Reading, directives: seq<Directive>, i: nat, l: nat)
    requires l <= |directives|
  {
    exists m :: i < m < l && Closes(reading, directives[m])
  }

  lemma {:induction false} OpenIffNotClosed(reading: Reading, directives: seq<Directive>, k: nat)
    requires k <= |directives|
    ensures var l := LastAgent(directives, k);
            if l == k then AgentsAt(reading, directives, k) == []
            else
              && AgentsAt(reading, directives, k) != []
              && (BlockOpen(reading, directives, k) <==> !ClosedBetween(reading, directives, l, k))
  {
    if k > 0 {
      OpenIffNotClosed(reading, directives, k - 1);
      var l, d := LastAgent(directives, k), directives[k - 1];
      if l < k - 1 {
        assert LastAgent(directives, k - 1) == l;
        assert ClosedBetween(reading, directives, l, k) <==>
               ClosedBetween(reading, directives, l, k - 1) || Closes(reading, d);
      }
    }
  }

  /** User-agent line i names the token, and no block closes between it and the last user-agent line before k. */
  predicate HeardFrom(reading: Reading, directives: seq<Directive>, token: string, i: nat, k: nat)
    requires i < k <= |directives|
  {
    && NamesAgent(directives[i]) && directives[i].agent == token
    && !ClosedBetween(reading, directives, i, LastAgent(directives, k))
  }

  lemma HeardSteps(reading: Reading, directives: seq<Directive>, token: string, i: nat, k: nat)
    requires i + 1 < k <= |directives|
    requires NamesAgent(directives[i]) && directives[i].agent == token
    ensures if !NamesAgent(directives[k - 1])
            then HeardFrom(reading, directives, token, i, k) <==> HeardFrom(reading, directives, token, i, k - 1)
            else HeardFrom(reading, directives, token, i, k) <==>
                   HeardFrom(reading, directives, token, i, k - 1) && BlockOpen(reading, directives, k - 1)
  {
    OpenIffNotClosed(reading, directives, k - 1);
    if NamesAgent(directives[k - 1]) {
      var l := LastAgent(directives, k - 1);
      assert i <= l < k - 1;
      assert ClosedBetween(reading, directives, i, k - 1) <==>
             ClosedBetween(reading, directives, i, l) || ClosedBetween(reading, directives, l, k - 1);
    }
  }

  /** In either reading, line k speaks to a token exactly when some user-agent line naming it is heard there. */
  lemma {:induction false} SpokenToIffHeard(reading: Reading, directives: seq<Directive>, token: string, k: nat)
    requires k <= |directives|
    ensures token in AgentsAt(reading, directives, k) <==>
            exists i :: 0 <= i < k && HeardFrom(reading, directives, token, i, k)
  {
    if k > 0 {
      SpokenToIffHeard(reading, directives, token, k - 1);
      forall i | 0 <= i < k - 1 && NamesAgent(directives[i]) && directives[i].agent == token
        ensures if !NamesAgent(directives[k - 1])
                then HeardFrom(reading, directives, token, i, k) <==> HeardFrom(reading, directives, token, i, k - 1)
                else HeardFrom(reading, directives, token, i, k) <==>
                       HeardFrom(reading, directives, token, i, k - 1) && BlockOpen(reading, directives, k - 1)
      {
        HeardSteps(reading, directives, token, i, k);
      }
      var d := directives[k - 1];
      if NamesAgent(d) {
        assert HeardFrom(reading, directives, token, k - 1, k) <==> d.agent == token;
        assert token in AgentsAt(reading, directives, k) <==>
               d.agent == token || (BlockOpen(reading, directives, k - 1)
                 && token in AgentsAt(reading, directives, k - 1));
      }
    }
  }

  // ---------------------------------------------------------------- when they agree

  predicate NamesToken(d: Directive, token: string) {
    NamesAgent(d) && d.agent == token
  }

  /** Line i is the last one up to l that names the token. */
  predicate LastNaming(directives: seq<Directive>, token: string, i: nat, l: nat)
    requires l < |directives|
  {
    i <= l && NamesToken(directives[i], token) && forall m :: i < m <= l ==> !NamesToken(directives[m], token)
  }

  /**
   Between lines i and l stand either rule lines, none of them with a value, and nothing else that the parser
   records, or a delay that it records and no rule line at all.
   */
  predicate Torn(directives: seq<Directive>, i: nat, l: nat)
    requires l <= |directives|
  {
    var someRule := exists m :: i < m < l && directives[m].RuleLine?;
    var someRecord := exists m :: i < m < l && Recorded(directives[m]);
    someRule != someRecord
  }

  /** Line j's block of agents is torn after the last line before it that names the token. */
  predicate TornAt(directives: seq<Directive>, token: string, j: nat)
    requires j < |directives|
  {
    var l := LastAgent(directives, j);
    l < j && exists i :: 0 <= i <= l && LastNaming(directives, token, i, l) && Torn(directives, i, l)
  }

  lemma {:induction false} FindLastNaming(directives: seq<Directive>, token: string, i: nat, l: nat) returns (last: nat)
    requires i <= l < |directives| && NamesToken(directives[i], token)
    ensures i <= last && LastNaming(directives, token, last, l)
    decreases l - i
  {
    if m :| i < m <= l && NamesToken(directives[m], token) {
      last := FindLastNaming(directives, token, m, l);
    } else {
      last := i;
    }
  }

  /** Only the last line that names the token matters. */
  lemma {:induction false} SpokenToByLast(reading: Reading, directives: seq<Directive>, token: string, i: nat, j: nat)
    requires j <= |directives|
    requires var l := LastAgent(directives, j); l < j && LastNaming(directives, token, i, l)
    ensures token in AgentsAt(reading, directives, j) <==>
            !ClosedBetween(reading, directives, i, LastAgent(directives, j))
  {
    var l := LastAgent(directives, j);
    SpokenToIffHeard(reading, directives, token, j);
    if k :| 0 <= k < j && HeardFrom(reading, directives, token, k, j) {
      assert k <= i;
      assert !ClosedBetween(reading, directives, i, l);
    }
    assert HeardFrom(reading, directives, token, i, j) <==> !ClosedBetween(reading, directives, i, l);
  }

  lemma TornIffReadingsDiffer(directives: seq<Directive>, i: nat, l: nat)
    requires l <= |directives|
    ensures Torn(directives, i, l) <==>
            ClosedBetween(Coded, directives, i, l) != ClosedBetween(Standard, directives, i, l)
  {
    assert ClosedBetween(Coded, directives, i, l) <==> exists m :: i < m < l && Recorded(directives[m]);
    assert ClosedBetween(Standard, directives, i, l) <==> exists m :: i < m < l && directives[m].RuleLine?;
  }

  /** The readings differ on whether a line speaks to a token exactly when its block of agents is torn for it. */
  lemma {:induction false} AgreeAtIff(directives: seq<Directive>, token: string, j: nat)
    requires j < |directives|
    ensures (token in AgentsAt(Coded, directives, j) <==> token in AgentsAt(Standard, directives, j)) <==>
            !TornAt(directives, token, j)
  {
    var l := LastAgent(directives, j);
    if k :| 0 <= k < j && NamesToken(directives[k], token) {
      assert k <= l;
      var i := FindLastNaming(directives, token, k, l);
      SpokenToByLast(Coded, directives, token, i, j);
      SpokenToByLast(Standard, directives, token, i, j);
      TornIffReadingsDiffer(directives, i, l);
      assert forall m :: 0 <= m <= l && LastNaming(directives, token, m, l) ==> m == i;
    } else {
      SpokenToIffHeard(Coded, directives, token, j);
      SpokenToIffHeard(Standard, directives, token, j);
    }
  }

  /** The rule lines that a reading gives to a token. */
  function LinesFor(reading: Reading, directives: seq<Directive>, token: string): set<nat> {
    set j: nat | j < |directives| && SpeaksTo(reading, directives, token, j)
  }

  /** No rule line with a value stands in a block that is torn for the token. */
  predicate Untorn(directives: seq<Directive>, token: string) {
    forall j :: 0 <= j < |directives| && ValuedRule(directives[j]) ==> !TornAt(directives, token, j)
  }

  /** For every file and token, the parser gives the token the rule lines of the standard exactly when none is torn. */
  lemma SameLinesIffUntorn(directives: seq<Directive>, token: string)
    ensures LinesFor(Coded, directives, token) == LinesFor(Standard, directives, token) <==> Untorn(directives, token)
  {
    forall j | 0 <= j < |directives|
      ensures !TornAt(directives, token, j) <==>
              (token in AgentsAt(Coded, directives, j) <==> token in AgentsAt(Standard, directives, j))
    {
      AgreeAtIff(directives, token, j);
    }
    var a, b := LinesFor(Coded, directives, token), LinesFor(Standard, directives, token);
    if a == b {
      forall j | 0 <= j < |directives| && ValuedRule(directives[j])
        ensures !TornAt(directives, token, j)
      {
        assert j in a <==> j in b;
      }
    }
    if Untorn(directives, token) {
      forall j: nat | j < |directives|
        ensures j in a <==> j in b
      {
      }
    }
  }

  lemma {:induction false} SameLinesSameRules(directives: seq<Directive>, token: string, k: nat)
    requires k <= |directives| && LinesFor(Coded, directives, token) == LinesFor(Standard, directives, token)
    ensures RulesFor(Coded, directives, token, k) == RulesFor(Standard, directives, token, k)
  {
    if k > 0 {
      SameLinesSameRules(directives, token, k - 1);
      assert k - 1 in LinesFor(Coded, directives, token) <==> SpeaksTo(Coded, directives, token, k - 1);
      assert k - 1 in LinesFor(Standard, directives, token) <==> SpeaksTo(Standard, directives, token, k - 1);
    }
  }

  /** The token whose rules an agent is given. */
  ghost function Chosen(directives: seq<Directive>, agent: string): string {
    if agent != "*" && Mentioned(directives, agent, |directives|) then agent else "*"
  }

  /** On files that are not torn for the chosen token, the parser selects the rules of the standard. */
  lemma {:induction false} SelectsAsStandard(directives: seq<Directive>, agent: string)
    requires Untorn(directives, Chosen(directives, agent))
    ensures SelectedRules(GroupsOf(directives, |directives|), agent)
         == RulesFor(Standard, directives, Chosen(directives, agent), |directives|)
  {
    SelectionByLines(directives, agent);
    SameLinesIffUntorn(directives, Chosen(directives, agent));
    SameLinesSameRules(directives, Chosen(directives, agent), |directives|);
  }

  /** No two rule lines with a value are the same. */
  predicate DistinctRules(directives: seq<Directive>) {
    forall i, j :: 0 <= i < j < |directives| && ValuedRule(directives[i]) && ValuedRule(directives[j]) ==>
      directives[i] != directives[j]
  }

  lemma {:induction false} RuleGiven(reading: Reading, directives: seq<Directive>, token: string, k: nat, rule: Rule)
    requires k <= |directives|
    ensures rule in RulesFor(reading, directives, token, k) <==>
            exists j :: 0 <= j < k && SpeaksTo(reading, directives, token, j) && directives[j].rule == rule
  {
    if k > 0 { RuleGiven(reading, directives, token, k - 1, rule); }
  }

  /** Rules that are told apart show which lines they came from. */
  lemma {:induction false} SameRulesSameLines(directives: seq<Directive>, token: string)
    requires DistinctRules(directives)
    requires RulesFor(Coded, directives, token, |directives|) == RulesFor(Standard, directives, token, |directives|)
    ensures LinesFor(Coded, directives, token) == LinesFor(Standard, directives, token)
  {
    forall j: nat | j < |directives| && ValuedRule(directives[j])
      ensures SpeaksTo(Coded, directives, token, j) <==> SpeaksTo(Standard, directives, token, j)
    {
      RuleGiven(Coded, directives, token, |directives|, directives[j].rule);
      RuleGiven(Standard, directives, token, |directives|, directives[j].rule);
    }
  }

  /** On files whose rules are told apart, the parser selects the rules of the standard exactly when none is torn. */
  lemma {:induction false} SelectsAsStandardIff(directives: seq<Directive>, agent: string)
    requires DistinctRules(directives)
    ensures SelectedRules(GroupsOf(directives, |directives|), agent)
         == RulesFor(Standard, directives, Chosen(directives, agent), |directives|)
       <==> Untorn(directives, Chosen(directives, agent))
  {
    var token := Chosen(directives, agent);
    SelectionByLines(directives, agent);
    SameLinesIffUntorn(directives, token);
    if Untorn(directives, token) {
      SelectsAsStandard(directives, agent);
    } else if RulesFor(Coded, directives, token, |directives|) == RulesFor(Standard, directives, token, |directives|) {
      SameRulesSameLines(directives, token);
    }
  }

  /**
   A rule without a value, then another agent and a rule: the parser gives the first agent that rule, the standard
   none.
   */
  lemma {:induction false} EmptyRuleKeepsBlockOpen(a: string, b: string, rule: Rule)
    requires a != "" && b != "" && a != b && rule.pattern != ""
    ensures var lines := [UserAgent(a), RuleLine(Rule(false, "")), UserAgent(b), RuleLine(rule)];
            RulesFor(Coded, lines, a, 4) == [rule] && RulesFor(Standard, lines, a, 4) == []
  {
    FourLines(Coded, UserAgent(a), RuleLine(Rule(false, "")), UserAgent(b), RuleLine(rule), a);
    FourLines(Standard, UserAgent(a), RuleLine(Rule(false, "")), UserAgent(b), RuleLine(rule), a);
  }

  /** A delay, then another agent and a rule: the parser gives the first agent nothing, the standard that rule. */
  lemma {:induction false} DelayClosesBlock(a: string, b: string, delay: real, rule: Rule)
    requires a != "" && b != "" && a != b && rule.pattern != "" && 0.0 <= delay <= 86400.0
    ensures var lines := [UserAgent(a), CrawlDelay(delay), UserAgent(b), RuleLine(rule)];
            RulesFor(Coded, lines, a, 4) == [] && RulesFor(Standard, lines, a, 4) == [rule]
  {
    FourLines(Coded, UserAgent(a), CrawlDelay(delay), UserAgent(b), RuleLine(rule), a);
    FourLines(Standard, UserAgent(a), CrawlDelay(delay), UserAgent(b), RuleLine(rule), a);
  }

  lemma {:induction false} FourLines(reading: Reading, x: Directive, d: Directive, y: Directive, r: Directive,
                                     a: string)
    requires NamesToken(x, a) && !NamesAgent(d) && !ValuedRule(d) && NamesAgent(y) && y.agent != a && ValuedRule(r)
    ensures RulesFor(reading, [x, d, y, r], a, 4) == if Closes(reading, d) then [] else [r.rule]
  {
    var lines := [x, d, y, r];
    assert AgentsAt(reading, lines, 0) == [];
    assert AgentsAt(reading, lines, 1) == [a];
    assert BlockOpen(reading, lines, 1);
    assert AgentsAt(reading, lines, 2) == [a];
    assert BlockOpen(reading, lines, 2) <==> !Closes(reading, d);
    assert AgentsAt(reading, lines, 3) == (if Closes(reading, d) then [] else [a]) + [y.agent];
    assert a in AgentsAt(reading, lines, 3) <==> !Closes(reading, d) by {
      if !Closes(reading, d) { assert AgentsAt(reading, lines, 3)[0] == a; }
    }
    assert RulesFor(reading, lines, a, 1) == [];
    assert RulesFor(reading, lines, a, 2) == [];
    assert RulesFor(reading, lines, a, 3) == [];
  }
}
