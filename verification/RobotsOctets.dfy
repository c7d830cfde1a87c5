/** Percent-encoding normalisation of robots.txt paths (section 2.2.2 of RFC 9309). */
module RobotsOctets {
  import opened Seqs
  import Words

  predicate IsUnreserved(c: char) {
    'A' <= c <= 'Z' || 'a' <= c <= 'z' || '0' <= c <= '9' || c == '-' || c == '.' || c == '_' || c == '~'
  }

  function HexDigit(n: nat): (c: char)
    requires n < 16
  {
    if n < 10 then '0' + n as char else 'A' + (n - 10) as char
  }

  predicate IsHex(c: char) {
    '0' <= c <= '9' || 'a' <= c <= 'f' || 'A' <= c <= 'F'
  }

  function HexValue(c: char): (n: nat)
    requires IsHex(c)
    ensures n < 16
  {
    var o := c as int;
    if o <= 57 then o - 48
    else if o <= 70 then o - 55
    else o - 87
  }

  /** The two characters after a percent sign, read as a base-16 integer literal. */
  datatype Literal = NotANumber | Number(value: int)

  /** The literal may also be one digit with a sign before it or white space on either side. */
  function ParseHex(a: char, b: char): Literal {
    if IsHex(a) && IsHex(b) then Number(16 * HexValue(a) + HexValue(b))
    else if (a == '+' || Words.IsSpace(a)) && IsHex(b) then Number(HexValue(b))
    else if a == '-' && IsHex(b) then Number(0 - HexValue(b))
    else if IsHex(a) && Words.IsSpace(b) then Number(HexValue(a))
    else NotANumber
  }

  type Byte = n: int | 0 <= n < 256

  /** The UTF-8 octets of a character. */
  function Utf8(c: char): (bytes: seq<Byte>)
    ensures c as int > 127 ==> forall i :: 0 <= i < |bytes| ==> bytes[i] >= 128
  {
    var o := c as int;
    if o < 0x80 then [o]
    else if o < 0x800 then [0xC0 + o / 64, 0x80 + o % 64]
    else if o < 0x10000 then [0xE0 + o / 4096, 0x80 + o / 64 % 64, 0x80 + o % 64]
    else [0xF0 + o / 262144, 0x80 + o / 4096 % 64, 0x80 + o / 64 % 64, 0x80 + o % 64]
  }

  /** A unit of a normalised path: a character standing for itself, or an octet that stays encoded. */
  datatype Token = Plain(c: char) | Encoded(b: Byte)

  function Text(t: Token): string {
    match t
    case Plain(c) => [c]
    case Encoded(b) => ['%', HexDigit(b / 16), HexDigit(b % 16)]
  }

  function Render(tokens: seq<Token>): string {
    if tokens == [] then "" else Text(tokens[0]) + Render(tokens[1..])
  }

  function EncodeAll(bytes: seq<Byte>): (tokens: seq<Token>)
    ensures |tokens| == |bytes| && forall i :: 0 <= i < |bytes| ==> tokens[i] == Encoded(bytes[i])
  {
    seq(|bytes|, i requires 0 <= i < |bytes| => Encoded(bytes[i]))
  }

  /** The literal at an index that holds a percent sign with two characters after it. */
  function LiteralAt(s: string, i: nat): Literal
    requires i < |s|
  {
    if s[i] == '%' && i + 2 < |s| then ParseHex(s[i + 1], s[i + 2]) else NotANumber
  }

  /** A negative literal has no character; converting it is an error the caller sees. */
  predicate Raises(s: string, i: nat)
    requires i <= |s|
    decreases |s| - i
  {
    i < |s| &&
    var n := LiteralAt(s, i);
    if n == NotANumber then Raises(s, i + 1) else n.value < 0 || Raises(s, i + 3)
  }

  /** The units that the text at i starts with. */
  function HeadUnits(s: string, i: nat): seq<Token>
    requires i < |s| && !Raises(s, i)
  {
    var n := LiteralAt(s, i);
    if n.Number? then [if IsUnreserved(n.value as char) then Plain(n.value as char) else Encoded(n.value)]
    else if s[i] as int > 127 then EncodeAll(Utf8(s[i]))
    else [Plain(s[i])]
  }

  /** The units that the text from i on denotes. */
  function Tokens(s: string, i: nat): seq<Token>
    requires i <= |s| && !Raises(s, i)
    decreases |s| - i
  {
    if i == |s| then []
    else HeadUnits(s, i) + Tokens(s, if LiteralAt(s, i).Number? then i + 3 else i + 1)
  }

  datatype Normalised = Normal(value: string) | ValueError

  function Normalise(s: string): Normalised {
    if Raises(s, 0) then ValueError else Normal(Render(Tokens(s, 0)))
  }

  lemma {:induction false} RenderAppend(a: seq<Token>, b: seq<Token>)
    ensures Render(a + b) == Render(a) + Render(b)
  {
    if a == [] {
      Units(b);
      Units(Render(b));
    } else {
      RenderAppend(a[1..], b);
      AppendHead(a, b);
      Assoc(Text(a[0]), Render(a[1..]), Render(b));
    }
  }

  lemma RenderOne(t: Token)
    ensures Render([t]) == Text(t)
  {
    assert [t][1..] == [];
    Units(Text(t));
  }

  /** The output so far, followed by what the rest from i on denotes, is what the whole text denotes. */
  ghost predicate Produced(s: string, i: nat, output: string)
    requires i <= |s|
  {
    && (Raises(s, 0) <==> Raises(s, i))
    && (!Raises(s, 0) ==> Render(Tokens(s, 0)) == output + Render(Tokens(s, i)))
  }

  method NormalizeOctets(value: string) returns (r: Normalised)
    ensures r == Normalise(value)
  {
    var output := "";
    var index := 0;
    Units(Render(if Raises(value, 0) then [] else Tokens(value, 0)));
    while index < |value|
      invariant 0 <= index <= |value|
      invariant Produced(value, index, output)
    {
      var character := value[index];
      StepProduces(value, index, output);
      if character == '%' && index + 2 < |value| {
        var literal := ParseHex(value[index + 1], value[index + 2]);
        if literal.NotANumber? {
          output := output + [character];
          index := index + 1;
          continue;
        }
        if literal.value < 0 {
          return ValueError;
        }
        var decoded := literal.value as char;
        if IsUnreserved(decoded) {
          output := output + [decoded];
        } else {
          output := output + Text(Encoded(literal.value));
        }
        index := index + 3;
        continue;
      }
      if character as int > 127 {
        output := output + Render(EncodeAll(Utf8(character)));
      } else {
        output := output + [character];
      }
      index := index + 1;
    }
    Units(output);
    return Normal(output);
  }

  /** What one round of the loop appends for them. */
  function Piece(s: string, i: nat): string
    requires i < |s| && !Raises(s, i)
  {
    var n := LiteralAt(s, i);
    if n.Number? then (if IsUnreserved(n.value as char) then [n.value as char] else Text(Encoded(n.value)))
    else if s[i] as int > 127 then Render(EncodeAll(Utf8(s[i])))
    else [s[i]]
  }

  lemma {:induction false} PieceRenders(s: string, i: nat)
    requires i < |s| && !Raises(s, i)
    ensures Piece(s, i) == Render(HeadUnits(s, i))
  {
    var head := HeadUnits(s, i);
    if |head| == 1 { RenderOne(head[0]); }
  }

  /** One round of the loop moves the units it consumes from the rest to the output. */
  lemma StepProduces(s: string, i: nat, output: string)
    requires i < |s| && Produced(s, i, output)
    ensures var n := LiteralAt(s, i);
            var next := if n.Number? then i + 3 else i + 1;
            if n.Number? && n.value < 0 then Raises(s, i)
            else
              && (Raises(s, i) <==> Raises(s, next))
              && (Raises(s, i) ==> forall piece :: Produced(s, next, piece))
              && (!Raises(s, i) ==> Produced(s, next, output + Piece(s, i)))
  {
    if !Raises(s, i) {
      var n := LiteralAt(s, i);
      var next := if n.Number? then i + 3 else i + 1;
      RenderAppend(HeadUnits(s, i), Tokens(s, next));
      PieceRenders(s, i);
      Assoc(output, Piece(s, i), Render(Tokens(s, next)));
    }
  }

  // ---------------------------------------------------------------- what normalisation decides

  /** A unit that normalisation can leave: no stray percent sign, no octet that should be plain. */
  predicate Canonical(t: Token) {
    match t
    case Plain(c) => c as int <= 127 && c != '%'
    case Encoded(b) => !IsUnreserved(b as char)
  }

  predicate AllCanonical(tokens: seq<Token>) {
    forall i :: 0 <= i < |tokens| ==> Canonical(tokens[i])
  }

  /** Every percent sign from i on starts an encoded octet, as the syntax of URIs demands. */
  predicate WellEncoded(s: string, i: nat)
    requires i <= |s|
    decreases |s| - i
  {
    if i == |s| then true
    else if s[i] == '%' then i + 2 < |s| && IsHex(s[i + 1]) && IsHex(s[i + 2]) && WellEncoded(s, i + 3)
    else WellEncoded(s, i + 1)
  }

  lemma {:induction false} WellEncodedIsCanonical(s: string, i: nat)
    requires i <= |s| && WellEncoded(s, i)
    ensures !Raises(s, i) && AllCanonical(Tokens(s, i))
    decreases |s| - i
  {
    if i < |s| { WellEncodedIsCanonical(s, if s[i] == '%' then i + 3 else i + 1); }
  }

  lemma HexRoundTrip(n: nat)
    requires n < 16
    ensures IsHex(HexDigit(n)) && HexValue(HexDigit(n)) == n
  {
  }

  /** Reading one canonical unit at i consumes its text and leaves what follows. */
  lemma ReadsOne(t: Token, rest: string, s: string, i: nat)
    requires Canonical(t) && i <= |s| && s[i..] == Text(t) + rest
    ensures i + |Text(t)| <= |s| && s[i + |Text(t)|..] == rest
    ensures Raises(s, i) <==> Raises(s, i + |Text(t)|)
    ensures !Raises(s, i) ==> Tokens(s, i) == [t] + Tokens(s, i + |Text(t)|)
    ensures WellEncoded(s, i + |Text(t)|) ==> WellEncoded(s, i)
  {
    var text := Text(t);
    assert |s| - i == |text| + |rest|;
    DropDrop(s, i, |text|);
    assert (text + rest)[|text|..] == rest;
    assert forall k :: 0 <= k < |text| ==> s[i + k] == s[i..][k] == text[k];
    if t.Encoded? {
      HexRoundTrip(t.b / 16);
      HexRoundTrip(t.b % 16);
      assert s[i] == text[0] && s[i + 1] == text[1] && s[i + 2] == text[2];
      assert LiteralAt(s, i) == Number(t.b);
    } else {
      assert s[i] == text[0];
    }
  }

  /** Reading a rendering back gives the same units. */
  lemma {:induction false} RenderReadsBack(tokens: seq<Token>, s: string, i: nat)
    requires AllCanonical(tokens) && i <= |s| && s[i..] == Render(tokens)
    ensures WellEncoded(s, i) && !Raises(s, i) && Tokens(s, i) == tokens
    decreases |tokens|
  {
    if tokens != [] {
      ReadsOne(tokens[0], Render(tokens[1..]), s, i);
      RenderReadsBack(tokens[1..], s, i + |Text(tokens[0])|);
    }
  }

  /** Normalising a well-encoded path once is enough. */
  lemma {:induction false} NormaliseIsIdempotent(s: string)
    requires WellEncoded(s, 0)
    ensures Normalise(s).Normal? && Normalise(Normalise(s).value) == Normalise(s)
  {
    WellEncodedIsCanonical(s, 0);
    var n := Render(Tokens(s, 0));
    Units(n);
    RenderReadsBack(Tokens(s, 0), n, 0);
  }

  /** Two well-encoded paths normalise alike exactly when they denote the same units. */
  lemma {:induction false} SameNormalIffSameUnits(s: string, t: string)
    requires WellEncoded(s, 0) && WellEncoded(t, 0)
    ensures !Raises(s, 0) && !Raises(t, 0)
    ensures Normalise(s) == Normalise(t) <==> Tokens(s, 0) == Tokens(t, 0)
  {
    WellEncodedIsCanonical(s, 0);
    WellEncodedIsCanonical(t, 0);
    if Normalise(s) == Normalise(t) {
      var n := Render(Tokens(s, 0));
      Units(n);
      RenderReadsBack(Tokens(s, 0), n, 0);
      RenderReadsBack(Tokens(t, 0), n, 0);
    }
  }

  // ---------------------------------------------------------------- stray percent signs

  /** Units of any path: canonical ones, and percent signs that started no literal. */
  predicate Readable(tokens: seq<Token>) {
    forall i :: 0 <= i < |tokens| ==> Canonical(tokens[i]) || tokens[i] == Plain('%')
  }

  lemma {:induction false} TokensReadable(s: string, i: nat)
    requires i <= |s| && !Raises(s, i)
    ensures Readable(Tokens(s, i))
    decreases |s| - i
  {
    if i < |s| {
      TokensReadable(s, if LiteralAt(s, i).Number? then i + 3 else i + 1);
    }
  }

  /** The literal that a stray percent sign at k forms with the two characters after it. */
  function Fused(tokens: seq<Token>, k: nat): Literal
    requires k < |tokens|
  {
    if tokens[k] == Plain('%') && k + 2 < |tokens| && tokens[k + 1].Plain? && tokens[k + 2].Plain? then
      ParseHex(tokens[k + 1].c, tokens[k + 2].c)
    else NotANumber
  }

  /** That literal is not the encoding of an octet that stays encoded, digits in upper case. */
  predicate Changes(tokens: seq<Token>, k: nat)
    requires k < |tokens|
  {
    var n := Fused(tokens, k);
    && n.Number?
    && (n.value < 0 || IsUnreserved(n.value as char)
        || tokens[k + 1].c != HexDigit(n.value / 16) || tokens[k + 2].c != HexDigit(n.value % 16))
  }

  predicate SomeChange(tokens: seq<Token>) {
    exists k :: 0 <= k < |tokens| && Changes(tokens, k)
  }

  /** Normalising what is left from i on leaves it as it is. */
  predicate Stays(s: string, i: nat)
    requires i <= |s|
  {
    !Raises(s, i) && Render(Tokens(s, i)) == s[i..]
  }

  lemma SomeChangeLater(tokens: seq<Token>, d: nat)
    requires d <= |tokens| && forall k :: 0 <= k < d ==> !Changes(tokens, k)
    ensures SomeChange(tokens) <==> SomeChange(tokens[d..])
  {
    var rest := tokens[d..];
    assert forall k :: 0 <= k < |rest| ==> (Changes(rest, k) <==> Changes(tokens, k + d));
    if SomeChange(tokens) {
      var k :| 0 <= k < |tokens| && Changes(tokens, k);
      assert Changes(rest, k - d);
    }
  }

  /** A unit read from its own text stays exactly when the rest does. */
  lemma {:induction false} StaysStep(s: string, i: nat, t: Token, next: nat)
    requires i < next <= |s| && s[i..] == Text(t) + s[next..]
    requires Raises(s, i) <==> Raises(s, next)
    requires !Raises(s, i) ==> Tokens(s, i) == [t] + Tokens(s, next)
    ensures Stays(s, i) <==> Stays(s, next)
  {
    if !Raises(s, i) {
      RenderAppend([t], Tokens(s, next));
      RenderOne(t);
      SameTails(Text(t), Render(Tokens(s, next)), s[next..]);
    }
  }

  lemma SameTails(a: string, b: string, c: string)
    ensures a + b == a + c <==> b == c
  {
    assert (a + b)[|a|..] == b && (a + c)[|a|..] == c;
  }

  /** The first two characters of a rendering, when they are not percent signs, are two plain units. */
  lemma {:induction false} RenderStart(tokens: seq<Token>)
    ensures |Render(tokens)| > 0 ==> tokens != [] && Render(tokens)[0] == Text(tokens[0])[0]
    ensures |Render(tokens)| > 1 && tokens[0].Plain? ==>
              |tokens| > 1 && Render(tokens)[1] == Text(tokens[1])[0]
  {
    if |Render(tokens)| > 1 && tokens[0].Plain? {
      assert Render(tokens) == [tokens[0].c] + Render(tokens[1..]);
      assert Render(tokens)[1] == Render(tokens[1..])[0];
    }
  }

  lemma {:induction false} ReadsStray(tokens: seq<Token>, s: string, i: nat)
    requires tokens != [] && tokens[0] == Plain('%') && Fused(tokens, 0).NotANumber?
    requires i <= |s| && s[i..] == Render(tokens)
    ensures i < |s| && s[i] == '%' && LiteralAt(s, i) == NotANumber && s[i + 1..] == Render(tokens[1..])
  {
    var rest := Render(tokens[1..]);
    assert s[i..] == ['%'] + rest;
    DropHead(s, i);
    RenderStart(tokens[1..]);
    if i + 2 < |s| {
      assert s[i + 1] == s[i + 1..][0] == rest[0] && s[i + 2] == s[i + 1..][1] == rest[1];
      if tokens[1].Plain? {
        assert tokens[1..][1] == tokens[2];
      }
    }
  }

  lemma {:induction false} ReadsFused(tokens: seq<Token>, s: string, i: nat)
    requires tokens != [] && Fused(tokens, 0).Number?
    requires i <= |s| && s[i..] == Render(tokens)
    ensures i + 3 <= |s| && LiteralAt(s, i) == Fused(tokens, 0)
    ensures s[i..] == ['%', tokens[1].c, tokens[2].c] + s[i + 3..] && s[i + 3..] == Render(tokens[3..])
  {
    var a, b, rest := tokens[1].c, tokens[2].c, Render(tokens[3..]);
    assert tokens[1..][0] == tokens[1] && tokens[1..][1..] == tokens[2..];
    assert tokens[2..][0] == tokens[2] && tokens[2..][1..] == tokens[3..];
    assert Render(tokens[2..]) == [b] + rest;
    assert Render(tokens[1..]) == [a] + ([b] + rest);
    assert Render(tokens) == ['%'] + ([a] + ([b] + rest)) == ['%', a, b] + rest;
    DropDrop(s, i, 3);
    assert (['%', a, b] + rest)[3..] == rest;
    assert s[i] == s[i..][0] && s[i + 1] == s[i..][1] && s[i + 2] == s[i..][2];
  }

  /** A fused literal that changes is an error, or shows in the first three characters. */
  lemma {:induction false} ChangeShows(tokens: seq<Token>, s: string, i: nat)
    requires tokens != [] && Changes(tokens, 0)
    requires i <= |s| && s[i..] == Render(tokens)
    ensures !Stays(s, i)
  {
    ReadsFused(tokens, s, i);
    if !Raises(s, i) {
      var n := Fused(tokens, 0).value;
      var t := if IsUnreserved(n as char) then Plain(n as char) else Encoded(n);
      RenderAppend([t], Tokens(s, i + 3));
      RenderOne(t);
      var again := Text(t) + Render(Tokens(s, i + 3));
      assert s[i..][0] == '%' && s[i..][1] == tokens[1].c && s[i..][2] == tokens[2].c;
      if t.Plain? {
        assert again[0] == t.c;
      } else {
        assert again[1] == HexDigit(n / 16) && again[2] == HexDigit(n % 16);
      }
    }
  }

  lemma {:induction false} KeptFusionStays(tokens: seq<Token>, s: string, i: nat)
    requires tokens != [] && Fused(tokens, 0).Number? && !Changes(tokens, 0)
    requires i <= |s| && s[i..] == Render(tokens)
    ensures i + 3 <= |s| && |tokens| >= 3 && s[i + 3..] == Render(tokens[3..])
    ensures Stays(s, i) <==> Stays(s, i + 3)
    ensures SomeChange(tokens) <==> SomeChange(tokens[3..])
  {
    SomeChangeLater(tokens, 3);
    ReadsFused(tokens, s, i);
    StaysStep(s, i, Encoded(Fused(tokens, 0).value), i + 3);
  }

  lemma {:induction false} UnitStays(tokens: seq<Token>, s: string, i: nat)
    requires tokens != [] && Readable(tokens) && Fused(tokens, 0).NotANumber?
    requires i <= |s| && s[i..] == Render(tokens)
    ensures var next := i + |Text(tokens[0])|;
            next <= |s| && s[next..] == Render(tokens[1..]) && (Stays(s, i) <==> Stays(s, next))
    ensures SomeChange(tokens) <==> SomeChange(tokens[1..])
  {
    SomeChangeLater(tokens, 1);
    var t := tokens[0];
    if t == Plain('%') {
      ReadsStray(tokens, s, i);
    } else {
      ReadsOne(t, Render(tokens[1..]), s, i);
    }
    StaysStep(s, i, t, i + |Text(t)|);
  }

  /** Normalised text stays exactly when no stray percent sign fuses into a literal that changes. */
  lemma {:induction false} StaysIffNoChange(tokens: seq<Token>, s: string, i: nat)
    requires Readable(tokens) && i <= |s| && s[i..] == Render(tokens)
    ensures Stays(s, i) <==> !SomeChange(tokens)
    decreases |tokens|
  {
    if tokens != [] {
      var t := tokens[0];
      if Changes(tokens, 0) {
        ChangeShows(tokens, s, i);
      } else if Fused(tokens, 0).Number? {
        KeptFusionStays(tokens, s, i);
        StaysIffNoChange(tokens[3..], s, i + 3);
      } else {
        UnitStays(tokens, s, i);
        StaysIffNoChange(tokens[1..], s, i + |Text(t)|);
      }
    }
  }

  /**
   Normalising a path twice gives what normalising it once gives exactly when no percent sign left over from the
   path fuses with what was decoded behind it into a literal that decodes, fails or is spelled otherwise.
   */
  lemma {:induction false} IdempotentIffNoFusion(s: string)
    requires Normalise(s).Normal?
    ensures Normalise(Normalise(s).value) == Normalise(s) <==> !SomeChange(Tokens(s, 0))
  {
    var n := Normalise(s).value;
    TokensReadable(s, 0);
    Units(n);
    StaysIffNoChange(Tokens(s, 0), n, 0);
  }

  /** Such a path: its percent sign fuses with a decoded digit and a plain one. */
  lemma FusionExists()
    ensures Normalise("%%341").Normal? && SomeChange(Tokens("%%341", 0))
  {
    var s := "%%341";
    assert Tokens(s, 5) == [];
    assert Tokens(s, 4) == [Plain('1')];
    assert LiteralAt(s, 1) == Number(0x34) && Tokens(s, 1) == [Plain('4'), Plain('1')];
    assert Tokens(s, 0) == [Plain('%'), Plain('4'), Plain('1')];
    assert !Raises(s, 0) && Changes(Tokens(s, 0), 0);
  }

  // ---------------------------------------------------------------- when normalisation fails

  /** A percent sign before a minus sign and a digit other than zero. */
  predicate NegativeAt(s: string, i: nat)
    requires i < |s|
  {
    s[i] == '%' && i + 2 < |s| && s[i + 1] == '-' && IsHex(s[i + 2]) && s[i + 2] != '0'
  }

  /** A sign is read as part of a literal, so the error is raised exactly when a negative one occurs in the text. */
  lemma {:induction false} RaisesIffNegative(s: string, i: nat)
    requires i <= |s|
    ensures Raises(s, i) <==> exists k :: i <= k < |s| && NegativeAt(s, k)
    decreases |s| - i
  {
    if i < |s| {
      var n := LiteralAt(s, i);
      var next := if n.Number? then i + 3 else i + 1;
      assert n.Number? && n.value < 0 <==> NegativeAt(s, i);
      RaisesIffNegative(s, next);
      assert n.Number? ==> !NegativeAt(s, i + 1) && !NegativeAt(s, i + 2);
      if k :| i <= k < |s| && NegativeAt(s, k) {
        assert k == i || k >= next;
      }
    }
  }

  // ---------------------------------------------------------------- character by character

  /** The units from i on are those of the text from i on. */
  lemma {:induction false} UnitsOfRest(s: string, d: nat, i: nat)
    requires d <= i <= |s|
    ensures Raises(s, i) <==> Raises(s[d..], i - d)
    ensures !Raises(s, i) ==> Tokens(s, i) == Tokens(s[d..], i - d)
    decreases |s| - i
  {
    if i < |s| {
      assert s[d..][i - d] == s[i];
      assert LiteralAt(s, i) == LiteralAt(s[d..], i - d);
      UnitsOfRest(s, d, if LiteralAt(s, i).Number? then i + 3 else i + 1);
    }
  }

  function Prepend(text: string, r: Normalised): Normalised {
    if r.Normal? then Normal(text + r.value) else r
  }

  /** How an octet is encoded. */
  function Percent(n: nat): string
    requires n < 256
  {
    var digits := "0123456789ABCDEF";
    ['%', digits[n / 16], digits[n % 16]]
  }

  /** The bits of a byte of that kind. */
  function Payload(b: Byte, lead: int): int {
    b as int - lead
  }

  predicate Continues(b: Byte) {
    0x80 <= b < 0xC0
  }

  /** Section 3 of RFC 3629: so many bytes for code points of that size, and the code point in their payloads. */
  predicate IsUtf8(bytes: seq<Byte>, o: nat) {
    match |bytes|
    case 1 => o < 0x80 && bytes[0] == o
    case 2 =>
      && 0x80 <= o < 0x800 && 0xC0 <= bytes[0] < 0xE0 && Continues(bytes[1])
      && o == Payload(bytes[0], 0xC0) * 0x40 + Payload(bytes[1], 0x80)
    case 3 =>
      && 0x800 <= o < 0x10000 && 0xE0 <= bytes[0] < 0xF0 && Continues(bytes[1]) && Continues(bytes[2])
      && o == (Payload(bytes[0], 0xE0) * 0x40 + Payload(bytes[1], 0x80)) * 0x40 + Payload(bytes[2], 0x80)
    case 4 =>
      && 0x10000 <= o && 0xF0 <= bytes[0] < 0xF8
      && Continues(bytes[1]) && Continues(bytes[2]) && Continues(bytes[3])
      && o == ((Payload(bytes[0], 0xF0) * 0x40 + Payload(bytes[1], 0x80)) * 0x40 + Payload(bytes[2], 0x80)) * 0x40
              + Payload(bytes[3], 0x80)
    case _ => false
  }

  lemma SixBits(o: nat)
    ensures o / 4096 == o / 64 / 64 && o / 262144 == o / 64 / 64 / 64
  {
  }

  lemma Utf8Is(c: char)
    ensures IsUtf8(Utf8(c), c as int)
  {
    var o := c as int;
    SixBits(o);
    if 0x800 <= o < 0x10000 {
      assert Payload(Utf8(c)[0], 0xE0) * 0x40 + Payload(Utf8(c)[1], 0x80) == o / 64;
    } else if 0x10000 <= o {
      assert Payload(Utf8(c)[0], 0xF0) * 0x40 + Payload(Utf8(c)[1], 0x80) == o / 64 / 64;
    }
  }

  lemma PercentIs(b: Byte)
    ensures Text(Encoded(b)) == Percent(b)
  {
    DigitIs(b / 16);
    DigitIs(b % 16);
  }

  lemma DigitIs(n: nat)
    requires n < 16
    ensures HexDigit(n) == "0123456789ABCDEF"[n]
  {
  }

  /** The octets of a character, each encoded. */
  function PercentAll(bytes: seq<Byte>): string {
    if bytes == [] then "" else Percent(bytes[0]) + PercentAll(bytes[1..])
  }

  lemma {:induction false} RenderAll(bytes: seq<Byte>)
    ensures Render(EncodeAll(bytes)) == PercentAll(bytes)
  {
    if bytes != [] {
      assert EncodeAll(bytes)[1..] == EncodeAll(bytes[1..]);
      PercentIs(bytes[0]);
      RenderAll(bytes[1..]);
    }
  }

  /** What the first characters of a path become. */
  ghost predicate Becomes(c: char, n: Literal, text: string) {
    if n.Number? then
      0 <= n.value < 256 && text == if IsUnreserved(n.value as char) then [n.value as char] else Percent(n.value)
    else if c as int > 127 then exists bytes :: IsUtf8(bytes, c as int) && text == PercentAll(bytes)
    else text == [c]
  }

  /**
   A path is normalised from its start: a literal after a percent sign becomes its character or its octet, any other
   character itself or its octets, and the rest is normalised for itself. A negative literal is an error.
   */
  lemma {:induction false} NormaliseStarts(s: string) returns (text: string)
    requires s != ""
    ensures var n := if s[0] == '%' && |s| > 2 then ParseHex(s[1], s[2]) else NotANumber;
            if n.Number? && n.value < 0 then Normalise(s) == ValueError
            else
              && Becomes(s[0], n, text)
              && Normalise(s) == Prepend(text, Normalise(s[if n.Number? then 3 else 1..]))
  {
    text := "";
    var n := LiteralAt(s, 0);
    if !(n.Number? && n.value < 0) {
      var next := if n.Number? then 3 else 1;
      UnitsOfRest(s, next, next);
      text := FirstPiece(s, n);
      if !Raises(s, 0) {
        RenderAppend(HeadUnits(s, 0), Tokens(s, next));
        PieceRenders(s, 0);
      }
    }
  }

  lemma FirstPiece(s: string, n: Literal) returns (text: string)
    requires s != "" && n == LiteralAt(s, 0) && (n.Number? ==> n.value >= 0)
    ensures Becomes(s[0], n, text) && (!Raises(s, 0) ==> text == Piece(s, 0))
  {
    if n.Number? {
      PercentIs(n.value);
      text := if IsUnreserved(n.value as char) then [n.value as char] else Percent(n.value);
    } else if s[0] as int > 127 {
      Utf8Is(s[0]);
      RenderAll(Utf8(s[0]));
      text := PercentAll(Utf8(s[0]));
    } else {
      text := [s[0]];
    }
  }
}
