/** JSON values, pointers to their scalar leaves, and the explicit-stack traversal that lists them. */
module JsonPointers {
  import opened Seqs
  import opened Texts

  /** A JSON value; a number that is not finite is kept apart because the schema contract refuses it. */
  datatype Json =
    | Null
    | Boolean(b: bool)
    | Integer(n: int)
    | Float(x: real)
    | NotFinite
    | Text(s: string)
    | Array(items: seq<Json>)
    | Object(members: seq<Member>)

  datatype Member = Member(name: string, value: Json)

  predicate Scalar(v: Json) {
    !v.Array? && !v.Object?
  }

  // ---------------------------------------------------------------- pointer tokens

  function PointerToken(name: string): string {
    ReplaceChar(ReplaceChar(name, '~', "~0"), '/', "~1")
  }

  /** Every occurrence of a pair of characters, left to right, becomes a character. */
  function ReplacePair(s: string, a: char, b: char, r: char): string {
    if |s| < 2 then s
    else if s[0] == a && s[1] == b then [r] + ReplacePair(s[2..], a, b, r)
    else [s[0]] + ReplacePair(s[1..], a, b, r)
  }

  /** Decoding as RFC 6901, section 4, has it: "~1" first, "~0" after. */
  function Unescape(token: string): string {
    ReplacePair(ReplacePair(token, '~', '1', '/'), '~', '0', '~')
  }

  /** Each tilde is followed by a zero, so no tilde is followed by a one. */
  predicate TildeZero(s: string) {
    if s == "" then true
    else if s[0] == '~' then |s| >= 2 && s[1] == '0' && TildeZero(s[2..])
    else TildeZero(s[1..])
  }

  lemma {:induction false} TildesEscaped(s: string)
    ensures TildeZero(ReplaceChar(s, '~', "~0"))
  {
    if s != "" {
      TildesEscaped(s[1..]);
      var rest := ReplaceChar(s[1..], '~', "~0");
      if s[0] == '~' {
        assert ("~0" + rest)[2..] == rest;
      } else {
        assert ([s[0]] + rest)[1..] == rest;
      }
    }
  }

  lemma {:induction false} TildesDecoded(s: string)
    ensures ReplacePair(ReplaceChar(s, '~', "~0"), '~', '0', '~') == s
  {
    if s != "" {
      TildesDecoded(s[1..]);
      var rest := ReplaceChar(s[1..], '~', "~0");
      if s[0] == '~' {
        assert ("~0" + rest)[2..] == rest;
      } else {
        assert ([s[0]] + rest)[1..] == rest;
      }
    }
  }

  lemma {:induction false} SlashesDecoded(s: string)
    requires TildeZero(s)
    ensures ReplacePair(ReplaceChar(s, '/', "~1"), '~', '1', '/') == s
    decreases |s|
  {
    if s != "" {
      var rest := ReplaceChar(s[1..], '/', "~1");
      if s[0] == '~' {
        SlashesDecoded(s[2..]);
        var after := ReplaceChar(s[2..], '/', "~1");
        assert s[1..][0] == '0' && s[1..][1..] == s[2..];
        assert rest == ['0'] + after;
        assert ReplaceChar(s, '/', "~1") == ['~'] + rest;
        assert (['~'] + rest)[1..] == rest && rest[1..] == after;
        assert s == ['~', '0'] + s[2..];
      } else {
        SlashesDecoded(s[1..]);
        if s[0] == '/' {
          assert ("~1" + rest)[2..] == rest;
        } else {
          assert ([s[0]] + rest)[1..] == rest;
        }
      }
    }
  }

  /** Decoding gives the name back, so escaping is injective. */
  lemma TokenRoundTrip(name: string)
    ensures Unescape(PointerToken(name)) == name
  {
    TildesEscaped(name);
    SlashesDecoded(ReplaceChar(name, '~', "~0"));
    TildesDecoded(name);
  }

  /** A name is escaped character by character. */
  lemma {:induction false} TokenSpells(name: string)
    ensures PointerToken(name) ==
            if name == "" then ""
            else (match name[0] case '~' => "~0" case '/' => "~1" case c => [c]) + PointerToken(name[1..])
  {
    if name != "" {
      var rest := ReplaceChar(name[1..], '~', "~0");
      if name[0] == '~' {
        assert ("~0" + rest)[1..] == ['0'] + rest && (['0'] + rest)[1..] == rest;
        assert ReplaceChar(['0'] + rest, '/', "~1") == ['0'] + ReplaceChar(rest, '/', "~1");
        assert ['~'] + (['0'] + ReplaceChar(rest, '/', "~1")) == "~0" + ReplaceChar(rest, '/', "~1");
      } else {
        assert ([name[0]] + rest)[1..] == rest;
      }
    }
  }

  predicate NoSlash(s: string) {
    forall i :: 0 <= i < |s| ==> s[i] != '/'
  }

  lemma {:induction false} SlashesGone(s: string)
    ensures NoSlash(ReplaceChar(s, '/', "~1"))
  {
    if s != "" { SlashesGone(s[1..]); }
  }

  lemma TokenHasNoSlash(name: string)
    ensures NoSlash(PointerToken(name))
  {
    SlashesGone(ReplaceChar(name, '~', "~0"));
  }

  function Decimal(n: nat): string {
    if n < 10 then [('0' as int + n) as char] else Decimal(n / 10) + [('0' as int + n % 10) as char]
  }

  function Value(digits: string): int {
    if digits == "" then 0 else Value(digits[..|digits| - 1]) * 10 + (digits[|digits| - 1] as int - '0' as int)
  }

  /** Indices are told apart by their digits. */
  lemma {:induction false} DecimalValue(n: nat)
    ensures Value(Decimal(n)) == n && NoSlash(Decimal(n)) && Decimal(n) != ""
  {
    if n >= 10 {
      DecimalValue(n / 10);
      var d := Decimal(n / 10);
      assert Decimal(n)[..|d|] == d;
    }
  }

  // ---------------------------------------------------------------- leaves

  function Width(v: Json): nat {
    match v
    case Array(items) => |items|
    case Object(members) => |members|
    case _ => 0
  }

  function Child(v: Json, k: nat): (c: Json)
    requires k < Width(v)
    ensures c < v
  {
    match v
    case Array(items) => items[k]
    case Object(members) => assert members[k] < v; members[k].value
  }

  /** The token of a child: its escaped name, or its index. */
  function Token(v: Json, k: nat): string
    requires k < Width(v)
  {
    if v.Array? then Decimal(k) else PointerToken(v.members[k].name)
  }

  datatype Field = Field(path: string, value: Json)

  /** The scalar leaves in preorder, each with its pointer. */
  function Leaves(path: string, v: Json): seq<Field>
    decreases v, 1
  {
    if Scalar(v) then [Field(path, v)] else LeavesFrom(path, v, 0)
  }

  function LeavesFrom(path: string, v: Json, k: nat): seq<Field>
    requires !Scalar(v) && k <= Width(v)
    decreases v, 0, Width(v) - k
  {
    if k == Width(v) then []
    else Leaves(path + "/" + Token(v, k), Child(v, k)) + LeavesFrom(path, v, k + 1)
  }

  // ---------------------------------------------------------------- the traversal with an explicit stack

  /** The leaves below the first k entries of a stack, from the top down. */
  function StackLeaves(stack: seq<Field>, k: nat): seq<Field>
    requires k <= |stack|
  {
    if k == 0 then [] else Leaves(stack[k - 1].path, stack[k - 1].value) + StackLeaves(stack, k - 1)
  }

  function Size(v: Json): nat
    decreases v, 1
  {
    if Scalar(v) then 1 else 1 + SizeFrom(v, 0)
  }

  function SizeFrom(v: Json, k: nat): nat
    requires !Scalar(v) && k <= Width(v)
    decreases v, 0, Width(v) - k
  {
    if k == Width(v) then 0 else Size(Child(v, k)) + SizeFrom(v, k + 1)
  }

  function StackSize(stack: seq<Field>, k: nat): nat
    requires k <= |stack|
  {
    if k == 0 then 0 else StackSize(stack, k - 1) + Size(stack[k - 1].value)
  }

  lemma {:induction false} StackPrefix(stack: seq<Field>, top: Field, k: nat)
    requires k <= |stack|
    ensures StackLeaves(stack + [top], k) == StackLeaves(stack, k)
    ensures StackSize(stack + [top], k) == StackSize(stack, k)
  {
    if k > 0 { StackPrefix(stack, top, k - 1); }
  }

  lemma {:induction false} StackPush(stack: seq<Field>, top: Field)
    ensures StackLeaves(stack + [top], |stack| + 1) == Leaves(top.path, top.value) + StackLeaves(stack, |stack|)
    ensures StackSize(stack + [top], |stack| + 1) == StackSize(stack, |stack|) + Size(top.value)
  {
    StackPrefix(stack, top, |stack|);
  }

  function Take<T>(s: seq<T>, n: nat): seq<T> {
    if |s| <= n then s else s[..n]
  }

  /** The children are pushed last first, so that the first is on top. */
  method PushChildren(stack: seq<Field>, path: string, v: Json) returns (more: seq<Field>)
    requires !Scalar(v)
    ensures StackLeaves(more, |more|) == LeavesFrom(path, v, 0) + StackLeaves(stack, |stack|)
    ensures StackSize(more, |more|) == SizeFrom(v, 0) + StackSize(stack, |stack|)
  {
    more := stack;
    var k: nat := Width(v);
    ghost var below, size := StackLeaves(stack, |stack|), StackSize(stack, |stack|);
    Units(below);
    while k > 0
      invariant k <= Width(v)
      invariant StackLeaves(more, |more|) == LeavesFrom(path, v, k) + below
      invariant StackSize(more, |more|) == SizeFrom(v, k) + size
    {
      k := k - 1;
      var child := Field(path + "/" + Token(v, k), Child(v, k));
      StackPush(more, child);
      Assoc(Leaves(child.path, child.value), LeavesFrom(path, v, k + 1), below);
      more := more + [child];
    }
  }

  lemma StackPop(stack: seq<Field>)
    requires stack != []
    ensures var top, rest := stack[|stack| - 1], stack[..|stack| - 1];
            && StackLeaves(stack, |stack|) == Leaves(top.path, top.value) + StackLeaves(rest, |rest|)
            && StackSize(stack, |stack|) == StackSize(rest, |rest|) + Size(top.value)
  {
    var top, rest := stack[|stack| - 1], stack[..|stack| - 1];
    assert stack == rest + [top];
    StackPush(rest, top);
  }

  lemma StackOfOne(f: Field)
    ensures StackLeaves([f], 1) == Leaves(f.path, f.value)
  {
    StackPush([], f);
    assert [] + [f] == [f];
    Units(Leaves(f.path, f.value));
  }

  /** The loop stops early, and has then exactly the first leaves of the whole traversal. */
  method ScalarFields(value: Json, path: string, maxFields: nat) returns (fields: seq<Field>)
    ensures fields == Take(Leaves(path, value), maxFields)
  {
    fields := [];
    var stack := [Field(path, value)];
    StackOfOne(stack[0]);
    ghost var all := Leaves(path, value);
    Units(all);
    while stack != [] && |fields| < maxFields
      invariant fields + StackLeaves(stack, |stack|) == all
      invariant |fields| <= maxFields
      decreases StackSize(stack, |stack|)
    {
      StackPop(stack);
      var top := stack[|stack| - 1];
      stack := stack[..|stack| - 1];
      if Scalar(top.value) {
        Assoc(fields, [top], StackLeaves(stack, |stack|));
        fields := fields + [Field(top.path, top.value)];
      } else {
        stack := PushChildren(stack, top.path, top.value);
      }
    }
    TakenPrefix(fields, StackLeaves(stack, |stack|), maxFields, stack == []);
  }

  lemma TakenPrefix(taken: seq<Field>, left: seq<Field>, n: nat, none: bool)
    requires |taken| <= n && (|taken| == n || none) && (none ==> left == [])
    ensures taken == Take(taken + left, n)
  {
  }

  // ---------------------------------------------------------------- pointers tell leaves apart

  /** No object has two members of one name. */
  predicate NamesDistinct(v: Json)
    decreases v
  {
    && (v.Object? ==> forall i, j :: 0 <= i < j < |v.members| ==> v.members[i].name != v.members[j].name)
    && forall k :: 0 <= k < Width(v) ==> NamesDistinct(Child(v, k))
  }

  lemma {:induction false} TokensDistinct(v: Json, i: nat, j: nat)
    requires NamesDistinct(v) && i < j < Width(v)
    ensures Token(v, i) != Token(v, j)
  {
    if v.Array? {
      DecimalValue(i);
      DecimalValue(j);
    } else {
      TokenRoundTrip(v.members[i].name);
      TokenRoundTrip(v.members[j].name);
    }
  }

  lemma TokenIsPlain(v: Json, k: nat)
    requires k < Width(v)
    ensures NoSlash(Token(v, k))
  {
    if v.Array? { DecimalValue(k); } else { TokenHasNoSlash(v.members[k].name); }
  }

  /** q is the pointer `path` or goes on below it. */
  predicate Under(path: string, q: string) {
    path <= q && (|q| == |path| || q[|path|] == '/')
  }

  /** A pointer goes on with one token only. */
  lemma OneToken(path: string, a: string, b: string, q: string)
    requires NoSlash(a) && NoSlash(b) && Under(path + "/" + a, q) && Under(path + "/" + b, q)
    ensures a == b
  {
    var n := |path| + 1;
    assert a == q[n..n + |a|] && b == q[n..n + |b|] by {
      assert (path + "/" + a)[n..] == a && (path + "/" + b)[n..] == b;
      assert q[..n + |a|] == path + "/" + a && q[..n + |b|] == path + "/" + b;
    }
  }

  lemma UnderParent(path: string, token: string, q: string)
    requires Under(path + "/" + token, q)
    ensures Under(path, q)
  {
    var longer := path + "/" + token;
    assert longer[..|path|] == path && longer[|path|] == '/';
    assert q[..|longer|] == longer;
    assert q[..|path|] == q[..|longer|][..|path|];
    assert q[|path|] == q[..|longer|][|path|];
  }

  ghost predicate AllUnder(path: string, fields: seq<Field>) {
    forall a :: 0 <= a < |fields| ==> Under(path, fields[a].path)
  }

  lemma {:induction false} LeavesUnder(path: string, v: Json)
    ensures AllUnder(path, Leaves(path, v))
    decreases v, 1
  {
    if !Scalar(v) {
      LeavesFromUnder(path, v, 0);
      forall a | 0 <= a < |Leaves(path, v)|
        ensures Under(path, Leaves(path, v)[a].path)
      {
        assert SomeBelow(path, v, 0, LeavesFrom(path, v, 0)[a].path);
        var m: nat :| Below(path, v, 0, m, LeavesFrom(path, v, 0)[a].path);
        UnderParent(path, Token(v, m), Leaves(path, v)[a].path);
      }
    }
  }

  /** The pointer q goes on with the token of child m, which is the k-th or a later one. */
  predicate Below(path: string, v: Json, k: nat, m: nat, q: string) {
    k <= m < Width(v) && Under(path + "/" + Token(v, m), q)
  }

  ghost predicate SomeBelow(path: string, v: Json, k: nat, q: string) {
    exists m: nat :: Below(path, v, k, m, q)
  }

  ghost predicate AllBelow(path: string, v: Json, k: nat, fields: seq<Field>) {
    forall a :: 0 <= a < |fields| ==> SomeBelow(path, v, k, fields[a].path)
  }

  lemma {:induction false} LeavesFromUnder(path: string, v: Json, k: nat)
    requires !Scalar(v) && k <= Width(v)
    ensures AllBelow(path, v, k, LeavesFrom(path, v, k))
    decreases v, 0, Width(v) - k
  {
    if k < Width(v) {
      var here := path + "/" + Token(v, k);
      var first, rest := Leaves(here, Child(v, k)), LeavesFrom(path, v, k + 1);
      LeavesUnder(here, Child(v, k));
      LeavesFromUnder(path, v, k + 1);
      var all := first + rest;
      forall a | 0 <= a < |all|
        ensures SomeBelow(path, v, k, all[a].path)
      {
        if a < |first| {
          assert all[a] == first[a] && Below(path, v, k, k, first[a].path);
        } else {
          assert all[a] == rest[a - |first|] && SomeBelow(path, v, k + 1, rest[a - |first|].path);
          var m: nat :| Below(path, v, k + 1, m, rest[a - |first|].path);
          assert Below(path, v, k, m, all[a].path);
        }
      }
    }
  }

  ghost predicate PathsDistinct(fields: seq<Field>) {
    forall a, b :: 0 <= a < b < |fields| ==> fields[a].path != fields[b].path
  }

  /** Distinct leaves have distinct pointers. */
  lemma {:induction false} PointersDistinct(path: string, v: Json)
    requires NamesDistinct(v)
    ensures PathsDistinct(Leaves(path, v))
    decreases v, 1
  {
    if !Scalar(v) { PointersFromDistinct(path, v, 0); }
  }

  lemma {:induction false} PointersFromDistinct(path: string, v: Json, k: nat)
    requires NamesDistinct(v) && !Scalar(v) && k <= Width(v)
    ensures PathsDistinct(LeavesFrom(path, v, k))
    decreases v, 0, Width(v) - k
  {
    if k < Width(v) {
      var here := path + "/" + Token(v, k);
      var first, rest := Leaves(here, Child(v, k)), LeavesFrom(path, v, k + 1);
      PointersDistinct(here, Child(v, k));
      PointersFromDistinct(path, v, k + 1);
      LeavesUnder(here, Child(v, k));
      LeavesFromUnder(path, v, k + 1);
      forall a: nat, b: nat | a < |first| && b < |rest|
        ensures first[a].path != rest[b].path
      {
        assert SomeBelow(path, v, k + 1, rest[b].path);
        var m: nat :| Below(path, v, k + 1, m, rest[b].path);
        TokensDistinct(v, k, m);
        TokenIsPlain(v, k);
        TokenIsPlain(v, m);
        if first[a].path == rest[b].path { OneToken(path, Token(v, k), Token(v, m), first[a].path); }
      }
      ConcatDistinct(first, rest);
    }
  }

  lemma ConcatDistinct(first: seq<Field>, rest: seq<Field>)
    requires PathsDistinct(first) && PathsDistinct(rest)
    requires forall a: nat, b: nat :: a < |first| && b < |rest| ==> first[a].path != rest[b].path
    ensures PathsDistinct(first + rest)
  {
  }

  // ---------------------------------------------------------------- which leaves, and in which order

  /** The scalar in that place of v, children counted from 0, with the pointer to it; `path` is the pointer to v. */
  predicate Holds(v: Json, place: seq<nat>, path: string, f: Field)
    decreases |place|
  {
    match v
    case Array(items) =>
      && place != [] && place[0] < |items|
      && Holds(items[place[0]], place[1..], path + "/" + Decimal(place[0]), f)
    case Object(members) =>
      && place != [] && place[0] < |members|
      && Holds(members[place[0]].value, place[1..], path + "/" + PointerToken(members[place[0]].name), f)
    case _ => place == [] && f == Field(path, v)
  }

  /** Where the places part, p goes on to an earlier child. */
  predicate Earlier(p: seq<nat>, q: seq<nat>) {
    p != [] && q != [] && (p[0] < q[0] || (p[0] == q[0] && Earlier(p[1..], q[1..])))
  }

  /** The fields listed are those in the places, which are in order and begin with child k or a later one. */
  ghost predicate Listed(v: Json, path: string, k: nat, places: seq<seq<nat>>, fields: seq<Field>) {
    && |places| == |fields|
    && (forall i :: 0 <= i < |places| ==> Holds(v, places[i], path, fields[i]))
    && (forall i, j :: 0 <= i < j < |places| ==> Earlier(places[i], places[j]))
    && (!Scalar(v) ==> forall i :: 0 <= i < |places| ==> k <= places[i][0])
  }

  /** Each leaf stands with the pointer to its own place, and the leaves are in the order of their places. */
  lemma {:induction false} LeavesInOrder(path: string, v: Json) returns (places: seq<seq<nat>>)
    ensures Listed(v, path, 0, places, Leaves(path, v))
    decreases v, 1
  {
    if Scalar(v) {
      places := [[]];
    } else {
      places := LeavesFromInOrder(path, v, 0);
    }
  }

  lemma {:induction false} LeavesFromInOrder(path: string, v: Json, k: nat) returns (places: seq<seq<nat>>)
    requires !Scalar(v) && k <= Width(v)
    ensures Listed(v, path, k, places, LeavesFrom(path, v, k))
    decreases v, 0, Width(v) - k
  {
    if k == Width(v) {
      places := [];
    } else {
      var here := path + "/" + Token(v, k);
      var below := LeavesInOrder(here, Child(v, k));
      var later := LeavesFromInOrder(path, v, k + 1);
      places := PlacesBelow(v, path, k, below, Leaves(here, Child(v, k)));
      ListedConcat(v, path, k, places, Leaves(here, Child(v, k)), later, LeavesFrom(path, v, k + 1));
      places := places + later;
    }
  }

  lemma PlacesBelow(v: Json, path: string, k: nat, below: seq<seq<nat>>, fields: seq<Field>)
    returns (places: seq<seq<nat>>)
    requires !Scalar(v) && k < Width(v) && Listed(Child(v, k), path + "/" + Token(v, k), 0, below, fields)
    ensures Listed(v, path, k, places, fields) && forall i :: 0 <= i < |places| ==> places[i][0] == k
  {
    places := seq(|below|, i requires 0 <= i < |below| => [k] + below[i]);
    assert forall i :: 0 <= i < |below| ==> places[i][1..] == below[i];
  }

  lemma ListedConcat(v: Json, path: string, k: nat, a: seq<seq<nat>>, fs: seq<Field>, b: seq<seq<nat>>, gs: seq<Field>)
    requires !Scalar(v) && Listed(v, path, k, a, fs) && Listed(v, path, k + 1, b, gs)
    requires forall i :: 0 <= i < |a| ==> a[i][0] == k
    ensures Listed(v, path, k, a + b, fs + gs)
  {
  }

  /** No scalar is left out. */
  lemma {:induction false} ScalarListed(path: string, v: Json, place: seq<nat>, f: Field)
    requires Holds(v, place, path, f)
    ensures f in Leaves(path, v)
    decreases |place|
  {
    if !Scalar(v) {
      var k := place[0];
      ScalarListed(path + "/" + Token(v, k), Child(v, k), place[1..], f);
      ChildLeaves(path, v, 0, k);
    }
  }

  lemma {:induction false} ChildLeaves(path: string, v: Json, k: nat, m: nat)
    requires !Scalar(v) && k <= m < Width(v)
    ensures forall f :: f in Leaves(path + "/" + Token(v, m), Child(v, m)) ==> f in LeavesFrom(path, v, k)
    decreases m - k
  {
    if k < m { ChildLeaves(path, v, k + 1, m); }
  }

  ghost predicate IsHeld(v: Json, path: string, f: Field) {
    exists place :: Holds(v, place, path, f)
  }

  /** The fields of a value are its scalars, all of them, each with the pointer to it. */
  lemma {:induction false} FieldIffHeld(path: string, v: Json, f: Field)
    ensures f in Leaves(path, v) <==> IsHeld(v, path, f)
  {
    if f in Leaves(path, v) {
      var place := PlaceOf(path, v, f);
    } else if IsHeld(v, path, f) {
      var place :| Holds(v, place, path, f);
      ScalarListed(path, v, place, f);
    }
  }

  lemma PlaceOf(path: string, v: Json, f: Field) returns (place: seq<nat>)
    requires f in Leaves(path, v)
    ensures Holds(v, place, path, f)
  {
    var places := LeavesInOrder(path, v);
    var i :| 0 <= i < |Leaves(path, v)| && Leaves(path, v)[i] == f;
    place := places[i];
  }
}
