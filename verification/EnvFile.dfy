/**
 * The dotenv file: printing, parsing, and the merge that rewrites a file. What is written is read back, and writing the
 * same values again changes nothing.
 */
module EnvFile {
  import opened Options
  import opened Seqs
  import opened Texts
  import opened Words

  datatype Entry = Entry(key: string, value: string)

  /** A dictionary in insertion order. */
  type Dict = seq<Entry>

  /** How a character's UTF-8 bytes read as Latin-1, and what a numeric or named escape yields and takes up. */
  datatype Codec = Codec(latin: char -> string, numeric: string -> Option<(string, nat)>)

  // ---------------------------------------------------------------- characters

  predicate IsLetter(c: char) {
    'a' <= c <= 'z' || 'A' <= c <= 'Z' || c == '_'
  }

  predicate IsDigit(c: char) {
    '0' <= c <= '9'
  }

  predicate ValidKey(key: string) {
    && key != "" && IsLetter(key[0])
    && forall i :: 0 <= i < |key| ==> IsLetter(key[i]) || IsDigit(key[i])
  }

  /** The characters that end a line of text. */
  predicate IsBreak(c: char) {
    var o := c as int;
    10 <= o <= 13 || 28 <= o <= 30 || o == 0x85 || o == 0x2028 || o == 0x2029
  }

  predicate NoBreaks(s: string) {
    forall i :: 0 <= i < |s| ==> !IsBreak(s[i])
  }

  predicate Ascii(s: string) {
    forall i :: 0 <= i < |s| ==> s[i] as int < 128
  }

  // ---------------------------------------------------------------- printing

  predicate Special(c: char) {
    IsSpace(c) || c == '#' || c == '"' || c == '\''
  }

  predicate NeedsQuoting(value: string) {
    exists i :: 0 <= i < |value| && Special(value[i])
  }

  function Escape(value: string): string {
    ReplaceChar(ReplaceChar(value, '\\', "\\\\"), '"', "\\\"")
  }

  function Enquote(escaped: string): string {
    ['"'] + (escaped + ['"'])
  }

  function Quote(value: string): string {
    if value == "" || !NeedsQuoting(value) then value else Enquote(Escape(value))
  }

  function Line(e: Entry): string {
    e.key + "=" + Quote(e.value)
  }

  function Rendered(d: Dict): (lines: seq<string>) {
    seq(|d|, i requires 0 <= i < |d| => Line(d[i]))
  }

  /** Lines from the k-th on, each ended. */
  function Body(lines: seq<string>, k: nat): string
    requires k <= |lines|
    decreases |lines| - k
  {
    if k == |lines| then [] else lines[k] + (['\n'] + Body(lines, k + 1))
  }

  /** Lines joined by line feeds, and one more at the end: of no lines, that is all there is. */
  function FileText(d: Dict): string {
    if d == [] then ['\n'] else Body(Rendered(d), 0)
  }

  // ---------------------------------------------------------------- parsing

  function BreakAt(s: string, k: nat): (i: nat)
    requires k <= |s|
    ensures k <= i <= |s| && (i < |s| ==> IsBreak(s[i]))
    ensures forall j :: k <= j < i ==> !IsBreak(s[j])
    decreases |s| - k
  {
    if k == |s| || IsBreak(s[k]) then k else BreakAt(s, k + 1)
  }

  /** A carriage return and the line feed after it end one line. */
  function SplitLines(s: string): seq<string> {
    if s == "" then []
    else
      var i := BreakAt(s, 0);
      if i == |s| then [s]
      else [s[..i]] + SplitLines(s[i + (if s[i] == '\r' && i + 1 < |s| && s[i + 1] == '\n' then 2 else 1)..])
  }

  /** Where an inline comment begins: at a hash outside quotes, at the start or after white space. */
  function CommentAt(s: string, k: nat, inSingle: bool, inDouble: bool, escaped: bool): (r: Option<nat>)
    requires k <= |s|
    ensures r.Some? ==> k <= r.value < |s|
    decreases |s| - k
  {
    if k == |s| then None
    else if escaped then CommentAt(s, k + 1, inSingle, inDouble, false)
    else if s[k] == '\\' && inDouble then CommentAt(s, k + 1, inSingle, inDouble, true)
    else if s[k] == '\'' && !inDouble then CommentAt(s, k + 1, !inSingle, inDouble, false)
    else if s[k] == '"' && !inSingle then CommentAt(s, k + 1, inSingle, !inDouble, false)
    else if s[k] == '#' && !inSingle && !inDouble && (k == 0 || IsSpace(s[k - 1])) then Some(k)
    else CommentAt(s, k + 1, inSingle, inDouble, false)
  }

  function StripInlineComment(value: string): string {
    var at := CommentAt(value, 0, false, false, false);
    if at.Some? then value[..Trimmed(value, at.value)] else Strip(value)
  }

  /** The loop over the characters, with its three flags. */
  method FindComment(value: string) returns (r: Option<nat>)
    ensures r == CommentAt(value, 0, false, false, false)
  {
    var inSingle, inDouble, escaped := false, false, false;
    for k := 0 to |value|
      invariant CommentAt(value, k, inSingle, inDouble, escaped) == CommentAt(value, 0, false, false, false)
    {
      var c := value[k];
      if escaped {
        escaped := false;
      } else if c == '\\' && inDouble {
        escaped := true;
      } else if c == '\'' && !inDouble {
        inSingle := !inSingle;
      } else if c == '"' && !inSingle {
        inDouble := !inDouble;
      } else if c == '#' && !inSingle && !inDouble {
        if k == 0 || IsSpace(value[k - 1]) { return Some(k); }
      }
    }
    r := None;
  }

  /** The one-letter escapes. */
  function Simple(c: char): Option<string> {
    if c == '\\' || c == '"' || c == '\'' then Some([c])
    else if c == 'n' then Some("\n")
    else if c == 'r' then Some("\r")
    else if c == 't' then Some("\t")
    else if c == 'a' then Some([7 as char])
    else if c == 'b' then Some([8 as char])
    else if c == 'f' then Some([12 as char])
    else if c == 'v' then Some([11 as char])
    else if c == '\n' then Some("")
    else None
  }

  predicate Numeric(c: char) {
    '0' <= c <= '7' || c == 'x' || c == 'u' || c == 'U' || c == 'N'
  }

  /** Decoding escapes; nothing comes of a malformed one. Other characters are read byte by byte. */
  function Decode(s: string, codec: Codec): Option<string>
    decreases |s|
  {
    if s == "" then Some("")
    else if s[0] != '\\' then Prepend(codec.latin(s[0]), Decode(s[1..], codec))
    else if |s| == 1 then None
    else if Simple(s[1]).Some? then Prepend(Simple(s[1]).value, Decode(s[2..], codec))
    else if Numeric(s[1]) then
      var n := codec.numeric(s[1..]);
      if n.None? || n.value.1 == 0 || n.value.1 >= |s| then None
      else Prepend(n.value.0, Decode(s[1 + n.value.1..], codec))
    else Prepend("\\" + codec.latin(s[1]), Decode(s[2..], codec))
  }

  function Prepend(s: string, rest: Option<string>): Option<string> {
    if rest.None? then None else Some(s + rest.value)
  }

  function Unquote(raw: string, codec: Codec): Option<string> {
    var value := StripInlineComment(raw);
    if |value| >= 2 && value[0] == value[|value| - 1] && (value[0] == '\'' || value[0] == '"') then
      var inner := value[1..|value| - 1];
      if value[0] == '"' then Decode(inner, codec) else Some(inner)
    else Some(value)
  }

  /** The first equals sign, if there is one. */
  function EqualsAt(s: string, k: nat): (i: nat)
    requires k <= |s|
    ensures k <= i <= |s| && (i < |s| ==> s[i] == '=') && forall j :: k <= j < i ==> s[j] != '='
    decreases |s| - k
  {
    if k == |s| || s[k] == '=' then k else EqualsAt(s, k + 1)
  }

  datatype Parsed = Nothing | Assignment(entry: Entry) | Malformed

  function ParseLine(raw: string, codec: Codec): Parsed {
    var line := Strip(raw);
    var i := EqualsAt(line, 0);
    if line == "" || line[0] == '#' || i == |line| then Nothing
    else ParseAssignment(Strip(line[..i]), Strip(line[i + 1..]), codec)
  }

  function ParseAssignment(key: string, value: string, codec: Codec): Parsed {
    if !ValidKey(key) then Nothing
    else
      var v := Unquote(value, codec);
      if v.None? then Malformed else Assignment(Entry(key, v.value))
  }

  /** Assigning to a key keeps its place, or appends it. */
  function Put(d: Dict, e: Entry): Dict {
    if d == [] then [e] else if d[0].key == e.key then [e] + d[1..] else [d[0]] + Put(d[1..], e)
  }

  function Apply(d: Option<Dict>, parsed: Parsed): Option<Dict> {
    if d.None? || parsed.Malformed? then None
    else if parsed.Nothing? then d
    else Some(Put(d.value, parsed.entry))
  }

  /** Assignments in order, later ones overriding earlier, until one is malformed. */
  function Fold(parsed: seq<Parsed>, k: nat): Option<Dict>
    requires k <= |parsed|
  {
    if k == 0 then Some([]) else Apply(Fold(parsed, k - 1), parsed[k - 1])
  }

  function ParseAll(lines: seq<string>, codec: Codec): seq<Parsed> {
    seq(|lines|, i requires 0 <= i < |lines| => ParseLine(lines[i], codec))
  }

  /** Parsing raises, or yields a dictionary. */
  function ParseEnvText(text: string, codec: Codec): Option<Dict> {
    var parsed := ParseAll(SplitLines(text), codec);
    Fold(parsed, |parsed|)
  }

  method ParseText(text: string, codec: Codec) returns (r: Option<Dict>)
    ensures r == ParseEnvText(text, codec)
  {
    var lines := SplitLines(text);
    r := ParseLinesOf(lines, codec);
  }

  method ParseLinesOf(lines: seq<string>, codec: Codec) returns (r: Option<Dict>)
    ensures var parsed := ParseAll(lines, codec); r == Fold(parsed, |parsed|)
  {
    ghost var all := ParseAll(lines, codec);
    var values: Dict := [];
    for k := 0 to |lines|
      invariant Fold(all, k) == Some(values)
    {
      var more := ParseInto(values, lines[k], codec);
      ParsedAt(lines, k, codec);
      FoldStep(all, k, Some(values), ParseLine(lines[k], codec));
      if more.None? {
        RaisesThroughout(all, k + 1, |all|);
        return None;
      }
      values := more.value;
    }
    r := Some(values);
  }

  method ParseInto(values: Dict, line: string, codec: Codec) returns (more: Option<Dict>)
    ensures more == Apply(Some(values), ParseLine(line, codec))
  {
    var parsed := ParseLine(line, codec);
    if parsed.Malformed? { return None; }
    if parsed.Nothing? { return Some(values); }
    more := Some(Put(values, parsed.entry));
  }

  lemma ParsedAt(lines: seq<string>, k: nat, codec: Codec)
    requires k < |lines|
    ensures ParseAll(lines, codec)[k] == ParseLine(lines[k], codec)
  {
  }

  lemma FoldStep(parsed: seq<Parsed>, k: nat, sofar: Option<Dict>, next: Parsed)
    requires k < |parsed| && Fold(parsed, k) == sofar && parsed[k] == next
    ensures Fold(parsed, k + 1) == Apply(sofar, next)
  {
  }

  lemma {:induction false} RaisesThroughout(parsed: seq<Parsed>, j: nat, k: nat)
    requires j <= k <= |parsed| && Fold(parsed, j) == None
    ensures Fold(parsed, k) == None
    decreases k
  {
    if j < k { RaisesThroughout(parsed, j, k - 1); }
  }

  // ---------------------------------------------------------------- one line, there and back

  /** Bytes below 128 are characters; every other character takes at least two bytes. */
  ghost predicate Faithful(codec: Codec) {
    && (forall c: char :: c as int < 128 ==> codec.latin(c) == [c])
    && (forall c: char :: c as int >= 128 ==> |codec.latin(c)| >= 2)
  }

  /** The values that survive: no line breaks, and plain ASCII when quoted. */
  predicate Fine(value: string) {
    NoBreaks(value) && (Ascii(value) || !NeedsQuoting(value))
  }

  function EscapeChar(c: char): string {
    if c == '\\' then "\\\\" else if c == '"' then "\\\"" else [c]
  }

  lemma EscapeHead(value: string)
    requires value != ""
    ensures Escape(value) == EscapeChar(value[0]) + Escape(value[1..])
  {
    var c, rest := value[0], ReplaceChar(value[1..], '\\', "\\\\");
    var head := if c == '\\' then "\\\\" else [c];
    assert ReplaceChar(value, '\\', "\\\\") == head + rest;
    ReplaceAppend(head, rest, '"', "\\\"");
    if c == '"' {
      ReplaceOne(c, "\\\"");
    } else {
      ReplaceNone(head, '"', "\\\"");
    }
  }

  /** Inside double quotes the escaped text holds no comment and ends at the closing quote. */
  lemma {:induction false} NoCommentInside(s: string, k: nat, value: string)
    requires k <= |s| && s[k..] == Escape(value) + ['"']
    ensures CommentAt(s, k, false, true, false) == None
    decreases |value|
  {
    if value == "" {
      assert s[k] == s[k..][0] == '"' && k + 1 == |s|;
    } else {
      EscapeHead(value);
      var head, tail := EscapeChar(value[0]), Escape(value[1..]) + ['"'];
      Assoc(head, Escape(value[1..]), ['"']);
      CutHead(s, k, head, tail);
      NoCommentInside(s, k + |head|, value[1..]);
    }
  }

  lemma CutHead(s: string, k: nat, head: string, tail: string)
    requires k <= |s| && s[k..] == head + tail
    ensures k + |head| <= |s| && s[k + |head|..] == tail
    ensures forall i :: 0 <= i < |head| ==> s[k + i] == head[i]
  {
    assert s[k + |head|..] == s[k..][|head|..];
    forall i | 0 <= i < |head|
      ensures s[k + i] == head[i]
    {
      assert s[k + i] == s[k..][i];
    }
  }

  lemma {:induction false} DecodeEscape(value: string, codec: Codec)
    requires Faithful(codec) && Ascii(value)
    ensures Decode(Escape(value), codec) == Some(value)
  {
    if value != "" {
      EscapeHead(value);
      var head, tail := EscapeChar(value[0]), Escape(value[1..]);
      DecodeEscape(value[1..], codec);
      assert (head + tail)[|head|..] == tail;
      assert value == [value[0]] + value[1..];
    }
  }

  lemma {:induction false} NoCommentPlain(s: string, k: nat)
    requires k <= |s| && forall i :: 0 <= i < |s| ==> !Special(s[i])
    ensures CommentAt(s, k, false, false, false) == None
    decreases |s| - k
  {
    if k < |s| {
      assert !Special(s[k]);
      NoCommentPlain(s, k + 1);
    }
  }

  lemma UnquotePlain(value: string, codec: Codec)
    requires forall i :: 0 <= i < |value| ==> !Special(value[i])
    ensures Bare(value) && Unquote(value, codec) == Some(value)
  {
    NoCommentPlain(value, 0);
    StripBare(value);
  }

  lemma UnquoteQuoted(value: string, codec: Codec)
    requires Faithful(codec) && Ascii(value)
    ensures Bare(Enquote(Escape(value))) && Unquote(Enquote(Escape(value)), codec) == Some(value)
  {
    UnquoteEnquoted(value, codec);
    DecodeEscape(value, codec);
  }

  lemma {:induction false} UnquoteEnquoted(value: string, codec: Codec)
    ensures var q := Enquote(Escape(value)); Bare(q) && Unquote(q, codec) == Decode(Escape(value), codec)
  {
    var q := Enquote(Escape(value));
    EnquoteIs(Escape(value));
    NoCommentInside(q, 1, value);
    StripBare(q);
  }

  lemma EnquoteIs(escaped: string)
    ensures var q := Enquote(escaped);
            |q| >= 2 && q[0] == '"' == q[|q| - 1] && q[1..] == escaped + ['"'] && q[1..|q| - 1] == escaped
  {
  }

  lemma UnquoteQuote(value: string, codec: Codec)
    requires Faithful(codec) && Fine(value)
    ensures Bare(Quote(value)) && Unquote(Quote(value), codec) == Some(value)
  {
    if value == "" || !NeedsQuoting(value) {
      UnquotePlain(value, codec);
    } else {
      UnquoteQuoted(value, codec);
    }
  }

  /** What is printed for an entry parses as that entry. */
  lemma LineRoundTrip(e: Entry, codec: Codec)
    requires Faithful(codec) && ValidKey(e.key) && Fine(e.value)
    ensures ParseLine(Line(e), codec) == Assignment(e)
  {
    UnquoteQuote(e.value, codec);
    ParseWritten(e.key, Quote(e.value), codec);
  }

  lemma ParseWritten(key: string, q: string, codec: Codec)
    requires ValidKey(key) && Bare(q)
    ensures ParseLine(key + "=" + q, codec) == ParseAssignment(key, q, codec)
  {
    var line := key + "=" + q;
    LineIsBare(key, q);
    EqualsAfter(key, q);
    ParseOf(line, |key|, codec);
    assert line[..|key|] == key && line[|key| + 1..] == q;
    StripBare(key);
    StripBare(q);
  }

  lemma {:induction false} ParseOf(line: string, i: nat, codec: Codec)
    requires Bare(line) && line != "" && line[0] != '#' && EqualsAt(line, 0) == i < |line|
    ensures ParseLine(line, codec) == ParseAssignment(Strip(line[..i]), Strip(line[i + 1..]), codec)
  {
    StripBare(line);
  }

  /** Decoding never fails on escaped text, and grows wherever it is not ASCII. */
  lemma {:induction false} DecodeGrows(value: string, codec: Codec)
    requires Faithful(codec)
    ensures var r := Decode(Escape(value), codec);
            r.Some? && |r.value| >= |value| && (|r.value| == |value| ==> Ascii(value))
  {
    if value != "" {
      EscapeHead(value);
      var head, tail := EscapeChar(value[0]), Escape(value[1..]);
      DecodeGrows(value[1..], codec);
      assert (head + tail)[|head|..] == tail;
      if Ascii(value[1..]) && value[0] as int < 128 {
        forall i | 0 <= i < |value|
          ensures value[i] as int < 128
        {
          if i > 0 { assert value[i] == value[1..][i - 1]; }
        }
      }
    }
  }

  /** On a line of its own, a value without breaks comes back exactly when it is ASCII or needs no quotes. */
  lemma LineRoundTripIff(e: Entry, codec: Codec)
    requires Faithful(codec) && ValidKey(e.key) && NoBreaks(e.value)
    ensures ParseLine(Line(e), codec) == Assignment(e) <==> Fine(e.value)
  {
    if Fine(e.value) {
      LineRoundTrip(e, codec);
    } else {
      UnquoteEnquoted(e.value, codec);
      ParseWritten(e.key, Enquote(Escape(e.value)), codec);
      DecodeGrows(e.value, codec);
    }
  }

  lemma LineIsBare(key: string, q: string)
    requires ValidKey(key) && Bare(q)
    ensures Bare(key) && Bare(key + "=" + q) && (key + "=" + q)[0] != '#'
  {
    var line := key + "=" + q;
    assert line[0] == key[0];
    assert line[|line| - 1] == if q == "" then '=' else q[|q| - 1];
    assert IsLetter(key[|key| - 1]) || IsDigit(key[|key| - 1]);
  }

  lemma {:induction false} EqualsAfter(key: string, q: string)
    requires ValidKey(key)
    ensures EqualsAt(key + "=" + q, 0) == |key|
  {
    var line := key + "=" + q;
    assert line[|key|] == '=';
    forall j | 0 <= j < |key|
      ensures line[j] != '='
    {
      assert line[j] == key[j];
    }
  }

  // ---------------------------------------------------------------- whole files

  predicate KeysDistinct(d: Dict) {
    forall i, j :: 0 <= i < j < |d| ==> d[i].key != d[j].key
  }

  ghost predicate Printable(d: Dict) {
    forall i :: 0 <= i < |d| ==> ValidKey(d[i].key) && Fine(d[i].value)
  }

  lemma NoBreaksInKey(key: string)
    requires ValidKey(key)
    ensures NoBreaks(key)
  {
  }

  lemma {:induction false} NoBreaksReplaced(s: string, c: char, r: string)
    requires NoBreaks(s) && NoBreaks(r)
    ensures NoBreaks(ReplaceChar(s, c, r))
  {
    if s != "" {
      forall i | 0 <= i < |s[1..]|
        ensures !IsBreak(s[1..][i])
      {
        assert s[1..][i] == s[i + 1];
      }
      NoBreaksReplaced(s[1..], c, r);
    }
  }

  lemma LineHasNoBreaks(e: Entry)
    requires ValidKey(e.key) && NoBreaks(e.value)
    ensures NoBreaks(Line(e))
  {
    NoBreaksInKey(e.key);
    NoBreaksReplaced(e.value, '\\', "\\\\");
    NoBreaksReplaced(ReplaceChar(e.value, '\\', "\\\\"), '"', "\\\"");
  }

  lemma {:induction false} SplitFirst(line: string, rest: string)
    requires NoBreaks(line)
    ensures SplitLines(line + (['\n'] + rest)) == [line] + SplitLines(rest)
  {
    var s := line + (['\n'] + rest);
    assert s[|line|] == '\n';
    forall j | 0 <= j < |line|
      ensures !IsBreak(s[j])
    {
      assert s[j] == line[j];
    }
    assert BreakAt(s, 0) == |line|;
    assert s[..|line|] == line && s[|line| + 1..] == rest;
  }

  lemma {:induction false} BodyLines(lines: seq<string>, k: nat)
    requires k <= |lines| && forall i :: 0 <= i < |lines| ==> NoBreaks(lines[i])
    ensures SplitLines(Body(lines, k)) == lines[k..]
    decreases |lines| - k
  {
    if k == |lines| {
      NoLines(Body(lines, k));
    } else {
      BodyLines(lines, k + 1);
      OneMoreLine(lines, k);
    }
  }

  lemma {:induction false} NoLines(s: string)
    requires s == ""
    ensures SplitLines(s) == []
  {
  }

  lemma OneMoreLine(lines: seq<string>, k: nat)
    requires k < |lines| && NoBreaks(lines[k]) && SplitLines(Body(lines, k + 1)) == lines[k + 1..]
    ensures SplitLines(Body(lines, k)) == lines[k..]
  {
    DropHead(lines, k);
    SplitFirst(lines[k], Body(lines, k + 1));
  }

  lemma {:induction false} PutNew(d: Dict, e: Entry)
    requires forall i :: 0 <= i < |d| ==> d[i].key != e.key
    ensures Put(d, e) == d + [e]
  {
    if d != [] { PutNew(d[1..], e); }
  }

  lemma {:induction false} FoldAssigns(parsed: seq<Parsed>, d: Dict, k: nat)
    requires KeysDistinct(d) && |parsed| == |d| && k <= |d|
    requires forall i :: 0 <= i < |d| ==> parsed[i] == Assignment(d[i])
    ensures Fold(parsed, k) == Some(d[..k])
  {
    if k > 0 {
      FoldAssigns(parsed, d, k - 1);
      PutNew(d[..k - 1], d[k - 1]);
      assert d[..k] == d[..k - 1] + [d[k - 1]];
    }
  }

  lemma EmptyFile(text: string, codec: Codec)
    requires |text| == 1 && text[0] == '\n'
    ensures ParseEnvText(text, codec) == Some([])
  {
    var first, rest := text[..0], text[1..];
    assert SplitLines(rest) == [];
    assert SplitLines(text) == [first] + SplitLines(rest);
    assert ParseLine(first, codec) == Nothing;
    var parsed := ParseAll(SplitLines(text), codec);
    assert |parsed| == 1 && parsed[0] == Nothing;
    assert Fold(parsed, 0) == Some([]);
  }

  lemma LinesParse(d: Dict, codec: Codec)
    requires Faithful(codec) && Printable(d)
    ensures forall i :: 0 <= i < |d| ==> ParseAll(Rendered(d), codec)[i] == Assignment(d[i])
  {
    forall i | 0 <= i < |d|
      ensures ParseAll(Rendered(d), codec)[i] == Assignment(d[i])
    {
      LineRoundTrip(d[i], codec);
    }
  }

  lemma TextLines(d: Dict)
    requires d != [] && forall i :: 0 <= i < |d| ==> ValidKey(d[i].key) && NoBreaks(d[i].value)
    ensures SplitLines(FileText(d)) == Rendered(d)
  {
    var lines := Rendered(d);
    forall i | 0 <= i < |lines|
      ensures NoBreaks(lines[i])
    {
      LineHasNoBreaks(d[i]);
    }
    BodyLines(lines, 0);
  }

  /** A printed file parses to exactly the entries printed, in order. */
  lemma FileRoundTrip(d: Dict, codec: Codec)
    requires Faithful(codec) && Printable(d) && KeysDistinct(d)
    ensures ParseEnvText(FileText(d), codec) == Some(d)
  {
    if d == [] {
      EmptyFile(FileText(d), codec);
    } else {
      TextLines(d);
      LinesParse(d, codec);
      FoldAssigns(ParseAll(Rendered(d), codec), d, |d|);
      assert d[..|d|] == d;
    }
  }

  // ---------------------------------------------------------------- values with line breaks

  lemma EscapeAppend(a: string, b: string)
    ensures Escape(a + b) == Escape(a) + Escape(b)
  {
    ReplaceAppend(a, b, '\\', "\\\\");
    ReplaceAppend(ReplaceChar(a, '\\', "\\\\"), ReplaceChar(b, '\\', "\\\\"), '"', "\\\"");
  }

  lemma EscapeNoBreaks(w: string)
    requires NoBreaks(w)
    ensures NoBreaks(Escape(w))
  {
    NoBreaksReplaced(w, '\\', "\\\\");
    NoBreaksReplaced(ReplaceChar(w, '\\', "\\\\"), '"', "\\\"");
  }

  /** Every quotation mark follows a backslash, or ends the line. */
  predicate Guarded(line: string) {
    forall p :: 0 <= p < |line| && line[p] == '"' ==> (p > 0 && line[p - 1] == '\\') || p == |line| - 1
  }

  predicate AllEscaped(s: string) {
    forall p :: 0 <= p < |s| && s[p] == '"' ==> p > 0 && s[p - 1] == '\\'
  }

  lemma {:induction false} EscapeEscapesAll(w: string)
    ensures AllEscaped(Escape(w))
  {
    if w != "" {
      EscapeHead(w);
      EscapeEscapesAll(w[1..]);
      var head, tail := EscapeChar(w[0]), Escape(w[1..]);
      forall p | 0 <= p < |head + tail| && (head + tail)[p] == '"'
        ensures p > 0 && (head + tail)[p - 1] == '\\'
      {
        if p >= |head| { assert tail[p - |head|] == '"'; }
      }
    }
  }

  lemma StripIsBare(text: string)
    ensures Bare(Strip(text))
  {
  }

  /** What is kept of a bare value once its comment is cut off is a prefix of it. */
  lemma CommentCutsPrefix(value: string)
    requires Bare(value)
    ensures StripInlineComment(value) <= value
  {
    StripBare(value);
  }

  lemma UnquoteNotDecoded(value: string, codec: Codec)
    requires Bare(value) && NoBreaks(value) && (value != "" && value[0] == '"' ==> |value| == 1)
    ensures Unquote(value, codec).Some? && NoBreaks(Unquote(value, codec).value)
  {
    CommentCutsPrefix(value);
    var kept := StripInlineComment(value);
    assert forall i :: 0 <= i < |kept| ==> kept[i] == value[i];
  }

  /** The stripped text after position k of a line stands at some p there, after k itself or white space. */
  lemma StripAfter(line: string, k: nat) returns (p: nat)
    requires k <= |line|
    ensures var v := Strip(line[k..]);
            k <= p <= p + |v| <= |line| && v == line[p..p + |v|] && (p == k || IsSpace(line[p - 1]))
  {
    var rest := line[k..];
    var e := Trimmed(rest, |rest|);
    var b := Leading(rest, 0, e);
    LeadingSpaces(rest, 0, e);
    p := k + b;
    assert rest[b..e] == line[k + b..k + e];
    if b > 0 { assert rest[b - 1] == line[k + b - 1]; }
  }

  lemma {:induction false} LeadingSpaces(text: string, k: nat, e: nat)
    requires k <= e <= |text|
    ensures forall i :: k <= i < Leading(text, k, e) ==> IsSpace(text[i])
    decreases e - k
  {
    if k < e && IsSpace(text[k]) { LeadingSpaces(text, k + 1, e); }
  }

  lemma SubGuarded(line: string)
    requires NoBreaks(line) && Guarded(line)
    ensures NoBreaks(Strip(line)) && Guarded(Strip(line))
  {
    var e := Trimmed(line, |line|);
    var b := Leading(line, 0, e);
    LeadingSpaces(line, 0, e);
    var t := Strip(line);
    assert forall i :: 0 <= i < |t| ==> t[i] == line[b + i];
    forall p | 0 <= p < |t| && t[p] == '"'
      ensures (p > 0 && t[p - 1] == '\\') || p == |t| - 1
    {
      assert line[b + p] == '"';
      if p == 0 && b > 0 { assert IsSpace(line[b - 1]); }
      if p > 0 { assert t[p - 1] == line[b + p - 1]; }
    }
  }

  /** The value of a guarded line begins with a quotation mark only if that is all of it. */
  lemma GuardedValue(t: string, i: nat)
    requires NoBreaks(t) && Guarded(t) && i < |t| && t[i] == '='
    ensures var v := Strip(t[i + 1..]); Bare(v) && NoBreaks(v) && (v != "" && v[0] == '"' ==> |v| == 1)
  {
    StripIsBare(t[i + 1..]);
    var p := StripAfter(t, i + 1);
    var v := Strip(t[i + 1..]);
    assert forall j :: 0 <= j < |v| ==> v[j] == t[p + j];
  }

  /** A guarded line without breaks assigns no value with a break: it is never read as double-quoted. */
  lemma GuardedIsHarmless(line: string, codec: Codec)
    requires NoBreaks(line) && Guarded(line)
    ensures Harmless(ParseLine(line, codec))
  {
    SubGuarded(line);
    var t := Strip(line);
    var i := EqualsAt(t, 0);
    if i < |t| {
      GuardedValue(t, i);
      AssignmentHarmless(Strip(t[..i]), Strip(t[i + 1..]), codec);
    }
  }

  lemma AssignmentHarmless(key: string, v: string, codec: Codec)
    requires Bare(v) && NoBreaks(v) && (v != "" && v[0] == '"' ==> |v| == 1)
    ensures Harmless(ParseAssignment(key, v, codec))
  {
    UnquoteNotDecoded(v, codec);
  }

  /** A parsed line that assigns no value with a break. */
  predicate Harmless(parsed: Parsed) {
    parsed.Assignment? ==> NoBreaks(parsed.entry.value)
  }

  lemma {:induction false} NoCommentOpen(s: string, k: nat, w: string)
    requires k <= |s| && s[k..] == Escape(w)
    ensures CommentAt(s, k, false, true, false) == None
    decreases |w|
  {
    if w != "" {
      EscapeHead(w);
      var head, tail := EscapeChar(w[0]), Escape(w[1..]);
      CutHead(s, k, head, tail);
      NoCommentOpen(s, k + |head|, w[1..]);
    }
  }

  /** Escaped text with a backslash left over cannot be decoded. */
  lemma {:induction false} DecodeDangling(u: string, s: string, codec: Codec)
    requires s == Escape(u) + ['\\']
    ensures Decode(s, codec) == None
    decreases |u|
  {
    if u == "" {
      assert s == ['\\'];
    } else {
      EscapeHead(u);
      var head, tail := EscapeChar(u[0]), Escape(u[1..]) + ['\\'];
      assert s == head + tail;
      assert s[|head|..] == tail;
      DecodeDangling(u[1..], tail, codec);
    }
  }

  /** An opened quote that a line break leaves open: the line raises, or assigns a stretch of itself. */
  lemma OpenValueHarmless(w: string, codec: Codec)
    requires NoBreaks(w) && (w == "" || !IsSpace(w[|w| - 1]))
    ensures var q := ['"'] + Escape(w);
            Bare(q) && (Unquote(q, codec).Some? ==> NoBreaks(Unquote(q, codec).value))
  {
    var q := ['"'] + Escape(w);
    EscapeNoBreaks(w);
    assert q[1..] == Escape(w);
    NoCommentOpen(q, 1, w);
    if w == "" {
      StripBare(q);
      assert q == ['"'];
    } else {
      EscapeEnd(w);
      StripBare(q);
      UnquoteUncommented(q, codec);
      if w[|w| - 1] == '"' {
        DecodeDangling(w[..|w| - 1], q[1..|q| - 1], codec);
      }
    }
  }

  lemma {:induction false} UnquoteUncommented(q: string, codec: Codec)
    requires |q| >= 2 && q[0] == '"' && NoBreaks(q) && StripInlineComment(q) == q
    ensures Unquote(q, codec) == if q[|q| - 1] == '"' then Decode(q[1..|q| - 1], codec) else Some(q)
  {
  }

  /** The end of escaped text behind an opening quote. */
  lemma EscapeEnd(w: string)
    requires w != ""
    ensures var q := ['"'] + Escape(w);
            && |q| >= 2 && q[|q| - 1] == w[|w| - 1]
            && (w[|w| - 1] == '"' ==> q[1..|q| - 1] == Escape(w[..|w| - 1]) + ['\\'])
  {
    var u, c := w[..|w| - 1], w[|w| - 1];
    assert w == u + [c];
    EscapeAppend(u, [c]);
    EscapeLast(c);
    assert Escape(w) == Escape(u) + EscapeChar(c);
  }

  lemma EscapeLast(c: char)
    ensures Escape([c]) == EscapeChar(c)
  {
    EscapeHead([c]);
    assert [c][1..] == "";
    assert Escape([c][1..]) == "";
    Units(EscapeChar(c));
  }

  lemma StripTrailing(a: string, spaces: string)
    requires a != "" && Bare(a) && Blank(spaces)
    ensures Strip(a + spaces) == a
    decreases |spaces|
  {
    var t := a + spaces;
    TrimmedSpaces(t, |a|, |t|);
    assert t[..|a|] == a;
    assert t[0] == a[0];
  }

  lemma {:induction false} TrimmedSpaces(t: string, n: nat, k: nat)
    requires 0 < n <= k <= |t| && !IsSpace(t[n - 1]) && forall i :: n <= i < k ==> IsSpace(t[i])
    ensures Trimmed(t, k) == n
  {
    if n < k { TrimmedSpaces(t, n, k - 1); }
  }

  lemma EscapeBlank(w: string)
    requires Blank(w)
    ensures Escape(w) == w
  {
    ReplaceNone(w, '\\', "\\\\");
    ReplaceNone(w, '"', "\\\"");
  }

  lemma OpenLineHarmless(key: string, w: string, codec: Codec)
    requires ValidKey(key) && NoBreaks(w) && (w == "" || !IsSpace(w[|w| - 1]))
    ensures var q := ['"'] + Escape(w); Bare(q) && Harmless(ParseLine(key + "=" + q, codec))
  {
    var q := ['"'] + Escape(w);
    OpenValueHarmless(w, codec);
    ParseWritten(key, q, codec);
  }

  lemma FirstLineNoBreaks(key: string, w: string)
    requires ValidKey(key) && NoBreaks(w)
    ensures NoBreaks(key + "=" + (['"'] + Escape(w)))
  {
    EscapeNoBreaks(w);
    NoBreaksInKey(key);
  }

  /** The first line of an entry whose value has a break assigns no value with a break. */
  lemma FirstLineHarmless(key: string, w: string, codec: Codec)
    requires ValidKey(key) && NoBreaks(w)
    ensures Harmless(ParseLine(key + "=" + (['"'] + Escape(w)), codec))
  {
    var n := Trimmed(w, |w|);
    var kept := w[..n];
    assert kept == "" || !IsSpace(kept[|kept| - 1]);
    var q := ['"'] + Escape(kept);
    EscapeTrimmed(w, n);
    OpenLineHarmless(key, kept, codec);
    ParseTrailing(key, q, w[n..], codec);
    Assoc(key + "=", q, w[n..]);
  }

  lemma EscapeTrimmed(w: string, n: nat)
    requires n <= |w| && forall i :: n <= i < |w| ==> IsSpace(w[i])
    ensures ['"'] + Escape(w) == ['"'] + Escape(w[..n]) + w[n..] && Blank(w[n..])
  {
    assert w == w[..n] + w[n..];
    EscapeAppend(w[..n], w[n..]);
    EscapeBlank(w[n..]);
  }

  lemma ParseTrailing(key: string, q: string, spaces: string, codec: Codec)
    requires ValidKey(key) && Bare(q) && Blank(spaces)
    ensures ParseLine(key + "=" + q + spaces, codec) == ParseLine(key + "=" + q, codec)
  {
    LineIsBare(key, q);
    StripTrailing(key + "=" + q, spaces);
    StripBare(key + "=" + q);
  }

  /** No line assigns a value with a break to the key. */
  predicate SafeFor(lines: seq<string>, key: string, codec: Codec) {
    forall i :: 0 <= i < |lines| ==> LineSafeFor(lines[i], key, codec)
  }

  predicate LineSafeFor(line: string, key: string, codec: Codec) {
    var parsed := ParseLine(line, codec);
    parsed.Assignment? && parsed.entry.key == key ==> Harmless(parsed)
  }

  lemma SafeCons(first: string, rest: seq<string>, key: string, codec: Codec)
    requires LineSafeFor(first, key, codec) && SafeFor(rest, key, codec)
    ensures SafeFor([first] + rest, key, codec)
  {
    var all := [first] + rest;
    assert forall i :: 1 <= i < |all| ==> all[i] == rest[i - 1];
  }

  /** The first line of a text that starts with a stretch without breaks and then a break. */
  lemma {:induction false} SplitAtBreak(line: string, br: char, rest: string)
    requires NoBreaks(line) && IsBreak(br)
    ensures SplitLines(line + ([br] + rest))
         == [line] + SplitLines(if br == '\r' && rest != "" && rest[0] == '\n' then rest[1..] else rest)
  {
    var s := line + ([br] + rest);
    assert forall j :: 0 <= j < |line| ==> s[j] == line[j];
    assert s[|line|] == br;
    assert BreakAt(s, 0) == |line|;
    assert s[..|line|] == line && s[|line| + 1..] == rest;
    if rest != "" {
      assert s[|line| + 1] == rest[0];
      assert s[|line| + 2..] == rest[1..];
    }
  }

  /** What follows a break in a printed value, up to the closing quote and the next lines. */
  function Tail(w: string, rest: string): string {
    Escape(w) + (['"'] + (['\n'] + rest))
  }

  lemma LastLineHarmless(w: string, codec: Codec)
    requires NoBreaks(w)
    ensures var line := Escape(w) + ['"']; NoBreaks(line) && Harmless(ParseLine(line, codec))
  {
    EscapeNoBreaks(w);
    EscapeEscapesAll(w);
    GuardedIsHarmless(Escape(w) + ['"'], codec);
  }

  lemma MiddleLineHarmless(w: string, codec: Codec)
    requires NoBreaks(w)
    ensures NoBreaks(Escape(w)) && Harmless(ParseLine(Escape(w), codec))
  {
    EscapeNoBreaks(w);
    EscapeEscapesAll(w);
    GuardedIsHarmless(Escape(w), codec);
  }

  /** A value cut at its first break. */
  lemma EscapeAtBreak(w: string, i: nat)
    requires i < |w| && IsBreak(w[i])
    ensures Escape(w) == Escape(w[..i]) + ([w[i]] + Escape(w[i + 1..]))
  {
    assert w == w[..i] + w[i..];
    EscapeAppend(w[..i], w[i..]);
    EscapeHead(w[i..]);
    assert w[i..][1..] == w[i + 1..];
  }

  /** After the break at i the text goes on with the value, past a line feed that belongs to the break. */
  lemma TailAfterBreak(w: string, i: nat, rest: string)
    requires i < |w| && IsBreak(w[i])
    ensures Tail(w, rest) == Escape(w[..i]) + ([w[i]] + Tail(w[i + 1..], rest))
    ensures var t := Tail(w[i + 1..], rest);
            && t != ""
            && (t[0] == '\n' ==> i + 1 < |w| && t[1..] == Tail(w[i + 2..], rest))
  {
    EscapeAtBreak(w, i);
    var close := ['"'] + (['\n'] + rest);
    Assoc(Escape(w[..i]), [w[i]] + Escape(w[i + 1..]), close);
    Assoc([w[i]], Escape(w[i + 1..]), close);
    var v := w[i + 1..];
    var t := Tail(v, rest);
    if v == "" {
      assert t == close;
    } else {
      EscapeHead(v);
      assert v[1..] == w[i + 2..];
      Assoc(EscapeChar(v[0]), Escape(v[1..]), close);
      assert t == EscapeChar(v[0]) + Tail(v[1..], rest);
      assert t[0] == EscapeChar(v[0])[0];
    }
  }

  lemma {:induction false} TailSafe(w: string, rest: string, key: string, codec: Codec)
    requires SafeFor(SplitLines(rest), key, codec)
    ensures SafeFor(SplitLines(Tail(w, rest)), key, codec)
    decreases |w|
  {
    var i := BreakAt(w, 0);
    if i == |w| {
      LastLineHarmless(w, codec);
      Assoc(Escape(w), ['"'], ['\n'] + rest);
      SplitFirst(Escape(w) + ['"'], rest);
      SafeCons(Escape(w) + ['"'], SplitLines(rest), key, codec);
    } else {
      var t := Tail(w[i + 1..], rest);
      MiddleLineHarmless(w[..i], codec);
      TailAfterBreak(w, i, rest);
      SplitAtBreak(Escape(w[..i]), w[i], t);
      var next := if w[i] == '\r' && t[0] == '\n' then t[1..] else t;
      if w[i] == '\r' && t[0] == '\n' {
        TailSafe(w[i + 2..], rest, key, codec);
      } else {
        TailSafe(w[i + 1..], rest, key, codec);
      }
      SafeCons(Escape(w[..i]), SplitLines(next), key, codec);
    }
  }

  lemma QuoteIsBare(value: string)
    ensures Bare(Quote(value))
  {
    if value != "" && NeedsQuoting(value) { EnquoteIs(Escape(value)); }
  }

  /** A printed line assigns to its own key, or is malformed. */
  lemma LineKeepsKey(e: Entry, codec: Codec)
    requires ValidKey(e.key)
    ensures var parsed := ParseLine(Line(e), codec);
            parsed.Malformed? || (parsed.Assignment? && parsed.entry.key == e.key)
  {
    QuoteIsBare(e.value);
    ParseWritten(e.key, Quote(e.value), codec);
  }

  lemma BreakNeedsQuoting(value: string, i: nat)
    requires i < |value| && IsBreak(value[i])
    ensures NeedsQuoting(value)
  {
    assert Special(value[i]);
  }

  /** An entry with a break in its value, printed before the rest of a file. */
  lemma BrokenEntry(e: Entry, i: nat, rest: string)
    requires i < |e.value| && IsBreak(e.value[i])
    ensures Line(e) + (['\n'] + rest)
         == e.key + "=" + (['"'] + Escape(e.value[..i])) + ([e.value[i]] + Tail(e.value[i + 1..], rest))
  {
    BreakNeedsQuoting(e.value, i);
    TailAfterBreak(e.value, i, rest);
    var a, b, open := e.key + "=", Escape(e.value), ['"'];
    assert Line(e) == a + (open + (b + ['"']));
    var more := ['\n'] + rest;
    assert a + (open + (b + ['"'])) + more == a + (open + (b + (['"'] + more)));
    var c, t := Escape(e.value[..i]), [e.value[i]] + Tail(e.value[i + 1..], rest);
    assert a + (open + (c + t)) == a + (open + c) + t;
  }

  lemma {:induction false} EntrySafe(e: Entry, rest: string, key: string, codec: Codec)
    requires ValidKey(e.key) && (NoBreaks(e.value) ==> e.key != key)
    requires SafeFor(SplitLines(rest), key, codec)
    ensures SafeFor(SplitLines(Line(e) + (['\n'] + rest)), key, codec)
  {
    var i := BreakAt(e.value, 0);
    if i == |e.value| {
      LineHasNoBreaks(e);
      SplitFirst(Line(e), rest);
      LineKeepsKey(e, codec);
      SafeCons(Line(e), SplitLines(rest), key, codec);
    } else {
      BrokenEntrySafe(e, i, rest, key, codec);
    }
  }

  lemma {:induction false} BrokenEntrySafe(e: Entry, i: nat, rest: string, key: string, codec: Codec)
    requires ValidKey(e.key) && i < |e.value| && IsBreak(e.value[i]) && NoBreaks(e.value[..i])
    requires SafeFor(SplitLines(rest), key, codec)
    ensures SafeFor(SplitLines(Line(e) + (['\n'] + rest)), key, codec)
  {
    var v, br := e.value, e.value[i];
    var first, t := e.key + "=" + (['"'] + Escape(v[..i])), Tail(v[i + 1..], rest);
    BrokenEntry(e, i, rest);
    FirstLineNoBreaks(e.key, v[..i]);
    FirstLineHarmless(e.key, v[..i], codec);
    TailAfterBreak(v, i, rest);
    SplitAtBreak(first, br, t);
    if br == '\r' && t[0] == '\n' {
      TailSafe(v[i + 2..], rest, key, codec);
      SafeCons(first, SplitLines(t[1..]), key, codec);
    } else {
      TailSafe(v[i + 1..], rest, key, codec);
      SafeCons(first, SplitLines(t), key, codec);
    }
  }

  ghost predicate ValidKeys(d: Dict) {
    forall i :: 0 <= i < |d| ==> ValidKey(d[i].key)
  }

  lemma {:induction false} BodySafe(d: Dict, k: nat, key: string, codec: Codec)
    requires k <= |d| && ValidKeys(d)
    requires forall i :: 0 <= i < |d| && NoBreaks(d[i].value) ==> d[i].key != key
    ensures SafeFor(SplitLines(Body(Rendered(d), k)), key, codec)
    decreases |d| - k
  {
    if k == |d| {
      NoLines(Body(Rendered(d), k));
    } else {
      BodySafe(d, k + 1, key, codec);
      EntrySafe(d[k], Body(Rendered(d), k + 1), key, codec);
    }
  }

  /** No entry of the dictionary has this key and a value with a break. */
  predicate NoBreaksUnder(d: Dict, key: string) {
    forall i :: 0 <= i < |d| && d[i].key == key ==> NoBreaks(d[i].value)
  }

  lemma {:induction false} PutNoBreaks(d: Dict, e: Entry, key: string)
    requires NoBreaksUnder(d, key) && (e.key == key ==> NoBreaks(e.value))
    ensures NoBreaksUnder(Put(d, e), key)
  {
    if d != [] && d[0].key != e.key {
      assert forall i :: 0 <= i < |d[1..]| ==> d[1..][i] == d[i + 1];
      PutNoBreaks(d[1..], e, key);
    }
  }

  lemma {:induction false} FoldNoBreaks(parsed: seq<Parsed>, k: nat, key: string)
    requires k <= |parsed|
    requires forall i :: 0 <= i < |parsed| && parsed[i].Assignment? && parsed[i].entry.key == key ==>
               Harmless(parsed[i])
    ensures Fold(parsed, k).Some? ==> NoBreaksUnder(Fold(parsed, k).value, key)
  {
    if k > 0 {
      FoldNoBreaks(parsed, k - 1, key);
      if Fold(parsed, k - 1).Some? && parsed[k - 1].Assignment? {
        PutNoBreaks(Fold(parsed, k - 1).value, parsed[k - 1].entry, key);
      }
    }
  }

  /** A value with a line break never comes back: its key is read with a value that has none, or not at all. */
  lemma BreakNeverReturns(d: Dict, i: nat, codec: Codec)
    requires ValidKeys(d) && KeysDistinct(d) && i < |d| && !NoBreaks(d[i].value)
    ensures var r := ParseEnvText(FileText(d), codec); r.Some? ==> NoBreaksUnder(r.value, d[i].key)
  {
    BodySafe(d, 0, d[i].key, codec);
    var lines := SplitLines(FileText(d));
    var parsed := ParseAll(lines, codec);
    assert forall k :: 0 <= k < |lines| ==>
             LineSafeFor(lines[k], d[i].key, codec) && parsed[k] == ParseLine(lines[k], codec);
    FoldNoBreaks(parsed, |parsed|, d[i].key);
  }

  /** Without line breaks every entry is one line, which assigns to its key or is malformed. */
  lemma UnbrokenEntries(d: Dict, codec: Codec) returns (parsed: seq<Parsed>)
    requires ValidKeys(d) && d != [] && forall i :: 0 <= i < |d| ==> NoBreaks(d[i].value)
    ensures parsed == ParseAll(SplitLines(FileText(d)), codec) && |parsed| == |d|
    ensures forall i :: 0 <= i < |d| ==> parsed[i] == ParseLine(Line(d[i]), codec)
    ensures forall i :: 0 <= i < |d| ==>
              parsed[i].Malformed? || (parsed[i].Assignment? && parsed[i].entry.key == d[i].key)
  {
    TextLines(d);
    parsed := ParseAll(Rendered(d), codec);
    forall i | 0 <= i < |d|
      ensures parsed[i].Malformed? || (parsed[i].Assignment? && parsed[i].entry.key == d[i].key)
    {
      LineKeepsKey(d[i], codec);
    }
  }

  /** If the entries come back, each line assigned its own. */
  lemma {:induction false} EachLineAssigned(parsed: seq<Parsed>, d: Dict)
    requires |parsed| == |d| && KeysDistinct(d) && Fold(parsed, |parsed|) == Some(d)
    requires forall i :: 0 <= i < |d| ==>
               parsed[i].Malformed? || (parsed[i].Assignment? && parsed[i].entry.key == d[i].key)
    ensures forall i :: 0 <= i < |d| ==> parsed[i] == Assignment(d[i])
  {
    forall i | 0 <= i < |d|
      ensures parsed[i].Assignment?
    {
      if parsed[i].Malformed? {
        RaisesThroughout(parsed, i + 1, |parsed|);
      }
    }
    var x := seq(|d|, i requires 0 <= i < |d| => parsed[i].entry);
    assert forall i :: 0 <= i < |d| ==> x[i].key == d[i].key;
    FoldAssigns(parsed, x, |x|);
    assert x[..|x|] == x;
  }

  /**
   For any entries with valid, distinct keys: the printed file parses to them if and only if every value has no
   line break and is ASCII or needs no quotes.
   */
  lemma FileRoundTripIff(d: Dict, codec: Codec)
    requires Faithful(codec) && ValidKeys(d) && KeysDistinct(d)
    ensures ParseEnvText(FileText(d), codec) == Some(d) <==> forall i :: 0 <= i < |d| ==> Fine(d[i].value)
  {
    if forall i :: 0 <= i < |d| ==> Fine(d[i].value) {
      FileRoundTrip(d, codec);
    } else if i :| 0 <= i < |d| && !NoBreaks(d[i].value) {
      BreakNeverReturns(d, i, codec);
    } else {
      var i :| 0 <= i < |d| && !Fine(d[i].value);
      var parsed := UnbrokenEntries(d, codec);
      LineRoundTripIff(d[i], codec);
      if Fold(parsed, |parsed|) == Some(d) {
        EachLineAssigned(parsed, d);
      }
    }
  }

  /** What may come back instead: a value that is a line feed reads as a quotation mark. */
  lemma LineBreakIsLost(key: string, codec: Codec)
    requires ValidKey(key)
    ensures ParseEnvText(FileText([Entry(key, ['\n'])]), codec) == Some([Entry(key, ['"'])])
  {
    BrokenLines(key);
    var lines := SplitLines(FileText([Entry(key, ['\n'])]));
    QuoteAlone(key, codec);
    var parsed := ParseAll(lines, codec);
    assert parsed[0] == Assignment(Entry(key, ['"'])) && parsed[1] == Nothing;
    FoldOfTwo(parsed, Entry(key, ['"']));
  }

  lemma {:induction false} FoldOfTwo(parsed: seq<Parsed>, e: Entry)
    requires |parsed| == 2 && parsed[0] == Assignment(e) && parsed[1] == Nothing
    ensures Fold(parsed, 2) == Some([e])
  {
    var none: Dict := [];
    assert Fold(parsed, 0) == Some(none);
    assert Put(none, e) == [e];
    assert Fold(parsed, 1) == Some([e]);
  }

  lemma BrokenLines(key: string)
    requires ValidKey(key)
    ensures SplitLines(FileText([Entry(key, ['\n'])])) == [key + "=" + ['"'], ['"']]
  {
    var e := Entry(key, ['\n']);
    var first, second, rest := key + "=" + ['"'], ['"'], Body(Rendered([e]), 1);
    BrokenLine(e);
    assert FileText([e]) == Line(e) + (['\n'] + rest);
    assert Line(e) + (['\n'] + rest) == first + (['\n'] + (second + (['\n'] + rest)));
    NoBreaksInKey(key);
    SplitFirst(first, second + (['\n'] + rest));
    SplitFirst(second, rest);
    NoLines(rest);
  }

  lemma BrokenLine(e: Entry)
    requires e.value == ['\n']
    ensures Line(e) == e.key + "=" + (['"'] + (['\n'] + ['"']))
  {
    ReplaceNone(e.value, '\\', "\\\\");
    ReplaceNone(e.value, '"', "\\\"");
    assert Special(e.value[0]);
  }

  lemma QuoteAlone(key: string, codec: Codec)
    requires ValidKey(key)
    ensures ParseLine(key + "=" + ['"'], codec) == Assignment(Entry(key, ['"'])) && ParseLine(['"'], codec) == Nothing
  {
    var q := ['"'];
    StripBare(q);
    assert CommentAt(q, 1, false, true, false) == None;
    assert CommentAt(q, 0, false, false, false) == None;
    ParseWritten(key, q, codec);
    assert EqualsAt(q, 0) == 1;
  }
}
