/** Rewriting a dotenv file: new values are merged into what the file holds, and doing it twice is doing it once. */
module EnvMerge {
  import opened Options
  import opened Seqs
  import opened Texts
  import opened EnvFile

  // ---------------------------------------------------------------- dictionaries

  function Get(d: Dict, key: string): Option<string> {
    if d == [] then None else if d[0].key == key then Some(d[0].value) else Get(d[1..], key)
  }

  function GetOr(d: Dict, key: string): string {
    var v := Get(d, key);
    if v.None? then "" else v.value
  }

  lemma {:induction false} GetPut(d: Dict, e: Entry, key: string)
    ensures Get(Put(d, e), key) == if key == e.key then Some(e.value) else Get(d, key)
  {
    if d != [] {
      GetPut(d[1..], e, key);
      if d[0].key == e.key {
        assert ([e] + d[1..])[1..] == d[1..];
      } else {
        assert ([d[0]] + Put(d[1..], e))[1..] == Put(d[1..], e);
      }
    }
  }

  lemma {:induction false} GetAppend(d: Dict, e: Entry, key: string)
    ensures Get(d + [e], key) == if Get(d, key).Some? then Get(d, key) else if key == e.key then Some(e.value) else None
  {
    if d == [] {
      assert [] + [e] == [e] && [e][1..] == [];
    } else {
      AppendHead(d, [e]);
      GetAppend(d[1..], e, key);
    }
  }

  lemma {:induction false} GetAt(d: Dict, i: nat)
    requires KeysDistinct(d) && i < |d|
    ensures Get(d, d[i].key) == Some(d[i].value)
  {
    if i > 0 {
      assert d[0].key != d[i].key;
      TailDistinct(d);
      GetAt(d[1..], i - 1);
    }
  }

  lemma TailDistinct(d: Dict)
    requires KeysDistinct(d) && d != []
    ensures KeysDistinct(d[1..])
  {
  }

  lemma {:induction false} GetNone(d: Dict, key: string)
    ensures Get(d, key) == None <==> forall i :: 0 <= i < |d| ==> d[i].key != key
  {
    if d != [] {
      GetNone(d[1..], key);
      if Get(d, key) == None {
        forall i | 0 <= i < |d|
          ensures d[i].key != key
        {
          if i > 0 { assert d[i] == d[1..][i - 1]; }
        }
      }
    }
  }

  // ---------------------------------------------------------------- merging

  /** A key is left alone if it is to be preserved and already has a value that is not blank. */
  predicate Keeps(existing: Dict, preserve: set<string>, key: string) {
    key in preserve && Strip(GetOr(existing, key)) != ""
  }

  function Updated(existing: Dict, values: Dict, preserve: set<string>, k: nat): Dict
    requires k <= |values|
  {
    if k == 0 then existing
    else
      var d := Updated(existing, values, preserve, k - 1);
      if Keeps(existing, preserve, values[k - 1].key) then d else Put(d, values[k - 1])
  }

  function Defaulted(d: Dict, template: Dict, k: nat): Dict
    requires k <= |template|
  {
    if k == 0 then d
    else
      var c := Defaulted(d, template, k - 1);
      if Get(c, template[k - 1].key).Some? then c else c + [template[k - 1]]
  }

  /** No template counts as an empty one. */
  function Merged(existing: Dict, values: Dict, preserve: set<string>, template: Dict): Dict {
    Defaulted(Updated(existing, values, preserve, |values|), template, |template|)
  }

  /** The keys of d that are not listed yet are added in order. */
  function AddKeys(keys: seq<string>, d: Dict, k: nat): seq<string>
    requires k <= |d|
  {
    if k == 0 then keys
    else
      var more := AddKeys(keys, d, k - 1);
      if d[k - 1].key in more then more else more + [d[k - 1].key]
  }

  function Listed(d: Dict): seq<string> {
    AddKeys([], d, |d|)
  }

  /** Template keys first, then those of the file, then new ones. */
  function OrderedKeys(template: Dict, existing: Dict, merged: Dict): seq<string> {
    AddKeys(AddKeys(Listed(template), existing, |existing|), merged, |merged|)
  }

  function Written(existing: Dict, values: Dict, preserve: set<string>, template: Dict): (d: Dict) {
    var merged := Merged(existing, values, preserve, template);
    var keys := OrderedKeys(template, existing, merged);
    seq(|keys|, i requires 0 <= i < |keys| => Entry(keys[i], GetOr(merged, keys[i])))
  }

  /** The new text of a file, unless what it holds cannot be parsed. A missing file holds nothing. */
  function WriteEnv(text: Option<string>, values: Dict, preserve: set<string>, template: Dict,
                    codec: Codec): Option<string> {
    var existing := if text.None? then Some([]) else ParseEnvText(text.value, codec);
    if existing.None? then None else Some(FileText(Written(existing.value, values, preserve, template)))
  }

  // ---------------------------------------------------------------- the loops

  method Merge(existing: Dict, values: Dict, preserve: set<string>, template: Dict) returns (merged: Dict)
    ensures merged == Merged(existing, values, preserve, template)
  {
    merged := existing;
    for k := 0 to |values|
      invariant merged == Updated(existing, values, preserve, k)
    {
      if values[k].key in preserve && Strip(GetOr(existing, values[k].key)) != "" { continue; }
      merged := Put(merged, values[k]);
    }
    for k := 0 to |template|
      invariant merged == Defaulted(Updated(existing, values, preserve, |values|), template, k)
    {
      if Get(merged, template[k].key).None? { merged := merged + [template[k]]; }
    }
  }

  method ListKeys(template: Dict, existing: Dict, merged: Dict) returns (keys: seq<string>)
    ensures keys == OrderedKeys(template, existing, merged)
  {
    keys := [];
    for k := 0 to |template|
      invariant keys == AddKeys([], template, k)
    {
      if template[k].key !in keys { keys := keys + [template[k].key]; }
    }
    ghost var first := keys;
    for k := 0 to |existing|
      invariant keys == AddKeys(first, existing, k)
    {
      if existing[k].key !in keys { keys := keys + [existing[k].key]; }
    }
    ghost var second := keys;
    for k := 0 to |merged|
      invariant keys == AddKeys(second, merged, k)
    {
      if merged[k].key !in keys { keys := keys + [merged[k].key]; }
    }
  }

  method Rewrite(text: Option<string>, values: Dict, preserve: set<string>, template: Dict, codec: Codec)
    returns (r: Option<string>)
    ensures r == WriteEnv(text, values, preserve, template, codec)
  {
    var existing: Option<Dict> := Some([]);
    if text.Some? { existing := ParseText(text.value, codec); }
    if existing.None? { return None; }
    var merged := Merge(existing.value, values, preserve, template);
    var keys := ListKeys(template, existing.value, merged);
    var entries: Dict := [];
    for k := 0 to |keys|
      invariant entries == Written(existing.value, values, preserve, template)[..k]
    {
      entries := entries + [Entry(keys[k], GetOr(merged, keys[k]))];
    }
    assert entries == Written(existing.value, values, preserve, template);
    r := Some(FileText(entries));
  }

  // ---------------------------------------------------------------- what a key ends up with

  function Or(a: Option<string>, b: Option<string>): Option<string> {
    if a.Some? then a else b
  }

  /** A new value unless the old one is kept, else the old one, else the template's. */
  function Outcome(existing: Dict, values: Dict, preserve: set<string>, template: Dict, key: string): Option<string> {
    Or(if Keeps(existing, preserve, key) then None else Get(values, key), Or(Get(existing, key), Get(template, key)))
  }

  /** The value of a key among the first k entries. */
  function GetFirst(d: Dict, key: string, k: nat): Option<string>
    requires k <= |d|
  {
    if k == 0 then None
    else if d[k - 1].key == key then Some(d[k - 1].value)
    else GetFirst(d, key, k - 1)
  }

  lemma {:induction false} GetFirstIsGet(d: Dict, key: string, k: nat)
    requires KeysDistinct(d) && k <= |d|
    ensures GetFirst(d, key, k).Some? ==> GetFirst(d, key, k) == Get(d, key)
    ensures GetFirst(d, key, k) == None <==> forall i :: 0 <= i < k ==> d[i].key != key
  {
    if k > 0 {
      GetFirstIsGet(d, key, k - 1);
      GetAt(d, k - 1);
    }
  }

  lemma {:induction false} UpdatedGet(existing: Dict, values: Dict, preserve: set<string>, key: string, k: nat)
    requires k <= |values|
    ensures Get(Updated(existing, values, preserve, k), key)
         == Or(if Keeps(existing, preserve, key) then None else GetFirst(values, key, k), Get(existing, key))
  {
    if k > 0 {
      UpdatedGet(existing, values, preserve, key, k - 1);
      GetPut(Updated(existing, values, preserve, k - 1), values[k - 1], key);
    }
  }

  lemma {:induction false} DefaultedGet(d: Dict, template: Dict, key: string, k: nat)
    requires KeysDistinct(template) && k <= |template|
    ensures Get(Defaulted(d, template, k), key) == Or(Get(d, key), GetFirst(template, key, k))
    decreases k
  {
    if k > 0 {
      DefaultedGet(d, template, key, k - 1);
      GetFirstIsGet(template, key, k - 1);
      DefaultedGet(d, template, template[k - 1].key, k - 1);
      GetFirstIsGet(template, template[k - 1].key, k - 1);
      GetAppend(Defaulted(d, template, k - 1), template[k - 1], key);
    }
  }

  lemma {:induction false} MergedGet(existing: Dict, values: Dict, preserve: set<string>, template: Dict, key: string)
    requires KeysDistinct(values) && KeysDistinct(template)
    ensures Get(Merged(existing, values, preserve, template), key) == Outcome(existing, values, preserve, template, key)
  {
    UpdatedGet(existing, values, preserve, key, |values|);
    DefaultedGet(Updated(existing, values, preserve, |values|), template, key, |template|);
    GetFirstIsGet(values, key, |values|);
    GetNone(values, key);
    GetFirstIsGet(template, key, |template|);
    GetNone(template, key);
  }

  // ---------------------------------------------------------------- the keys of the file

  predicate Distinct(keys: seq<string>) {
    forall i, j :: 0 <= i < j < |keys| ==> keys[i] != keys[j]
  }

  lemma {:induction false} AddKeysIs(keys: seq<string>, d: Dict, k: nat)
    requires Distinct(keys) && k <= |d|
    ensures Distinct(AddKeys(keys, d, k)) && keys <= AddKeys(keys, d, k)
    ensures forall key :: key in AddKeys(keys, d, k) <==> key in keys || GetFirst(d, key, k).Some?
  {
    if k > 0 { AddKeysIs(keys, d, k - 1); }
  }

  function KeysOf(d: Dict): (keys: seq<string>) {
    seq(|d|, i requires 0 <= i < |d| => d[i].key)
  }

  /** Keys that begin with the first ones of d are completed to all of d's. */
  lemma {:induction false} AddKeysCompletes(keys: seq<string>, d: Dict, k: nat)
    requires KeysDistinct(d) && keys <= KeysOf(d) && k <= |d|
    ensures AddKeys(keys, d, k) == if k <= |keys| then keys else KeysOf(d)[..k]
  {
    if k > 0 {
      AddKeysCompletes(keys, d, k - 1);
      if k <= |keys| {
        assert keys[k - 1] == KeysOf(d)[k - 1];
      } else {
        assert d[k - 1].key !in KeysOf(d)[..k - 1];
        assert KeysOf(d)[..k - 1] + [d[k - 1].key] == KeysOf(d)[..k];
      }
    }
  }

  lemma {:induction false} AddKeysNone(keys: seq<string>, d: Dict, k: nat)
    requires k <= |d| && forall i :: 0 <= i < |d| ==> d[i].key in keys
    ensures AddKeys(keys, d, k) == keys
  {
    if k > 0 { AddKeysNone(keys, d, k - 1); }
  }

  /** The keys listed are distinct, begin with the template's, and are exactly those that have a value. */
  lemma OrderedKeysAre(existing: Dict, values: Dict, preserve: set<string>, template: Dict)
    requires KeysDistinct(values) && KeysDistinct(template)
    ensures var merged := Merged(existing, values, preserve, template);
            var keys := OrderedKeys(template, existing, merged);
            && Distinct(keys) && Listed(template) <= keys
            && forall key :: key in keys <==> Outcome(existing, values, preserve, template, key).Some?
  {
    var merged := Merged(existing, values, preserve, template);
    var keys := OrderedKeys(template, existing, merged);
    AddKeysIs([], template, |template|);
    AddKeysIs(Listed(template), existing, |existing|);
    AddKeysIs(AddKeys(Listed(template), existing, |existing|), merged, |merged|);
    forall key
      ensures key in keys <==> Outcome(existing, values, preserve, template, key).Some?
    {
      KeyListed(existing, values, preserve, template, key);
    }
  }

  lemma KeyListed(existing: Dict, values: Dict, preserve: set<string>, template: Dict, key: string)
    requires KeysDistinct(values) && KeysDistinct(template)
    ensures var merged := Merged(existing, values, preserve, template);
            key in OrderedKeys(template, existing, merged) <==> Outcome(existing, values, preserve, template, key).Some?
  {
    var merged := Merged(existing, values, preserve, template);
    AddKeysIs([], template, |template|);
    AddKeysIs(Listed(template), existing, |existing|);
    AddKeysIs(AddKeys(Listed(template), existing, |existing|), merged, |merged|);
    FirstIffGet(template, key, |template|);
    FirstIffGet(existing, key, |existing|);
    FirstIffGet(merged, key, |merged|);
    MergedGet(existing, values, preserve, template, key);
  }

  lemma {:induction false} FirstIffGet(d: Dict, key: string, k: nat)
    requires k == |d|
    ensures GetFirst(d, key, k).Some? <==> Get(d, key).Some?
  {
    FirstIffKey(d, key, k);
    GetNone(d, key);
  }

  lemma {:induction false} FirstIffKey(d: Dict, key: string, k: nat)
    requires k <= |d|
    ensures GetFirst(d, key, k) == None <==> forall i :: 0 <= i < k ==> d[i].key != key
  {
    if k > 0 { FirstIffKey(d, key, k - 1); }
  }

  /** What is written has each key once, with the value it ends up with. */
  lemma {:induction false} WrittenIs(existing: Dict, values: Dict, preserve: set<string>, template: Dict, key: string)
    requires KeysDistinct(values) && KeysDistinct(template)
    ensures var d := Written(existing, values, preserve, template);
            KeysDistinct(d) && Get(d, key) == Outcome(existing, values, preserve, template, key)
  {
    var merged := Merged(existing, values, preserve, template);
    var keys := OrderedKeys(template, existing, merged);
    var d := Written(existing, values, preserve, template);
    OrderedKeysAre(existing, values, preserve, template);
    MergedGet(existing, values, preserve, template, key);
    if key in keys {
      var i :| 0 <= i < |keys| && keys[i] == key;
      GetAt(d, i);
    } else {
      GetNone(d, key);
    }
  }

  /** Merging the same values into what they made changes no value. */
  lemma OutcomeIsFixed(existing: Dict, values: Dict, preserve: set<string>, template: Dict, key: string)
    requires KeysDistinct(values) && KeysDistinct(template)
    ensures var d := Written(existing, values, preserve, template);
            Outcome(d, values, preserve, template, key) == Outcome(existing, values, preserve, template, key)
  {
    WrittenIs(existing, values, preserve, template, key);
  }

  lemma KeysAreFixed(existing: Dict, values: Dict, preserve: set<string>, template: Dict)
    requires KeysDistinct(values) && KeysDistinct(template)
    ensures var d := Written(existing, values, preserve, template);
            OrderedKeys(template, d, Merged(d, values, preserve, template)) == KeysOf(d)
  {
    var d := Written(existing, values, preserve, template);
    var again := Merged(d, values, preserve, template);
    WrittenKeys(existing, values, preserve, template);
    WrittenIs(existing, values, preserve, template, "");
    forall i | 0 <= i < |again|
      ensures again[i].key in KeysOf(d)
    {
      StillListed(existing, values, preserve, template, i);
    }
    KeysComplete(template, d, again);
  }

  lemma WrittenKeys(existing: Dict, values: Dict, preserve: set<string>, template: Dict)
    ensures Listed(template) <= KeysOf(Written(existing, values, preserve, template))
  {
    var merged := Merged(existing, values, preserve, template);
    AddKeysIs([], template, |template|);
    AddKeysIs(Listed(template), existing, |existing|);
    AddKeysIs(AddKeys(Listed(template), existing, |existing|), merged, |merged|);
    assert KeysOf(Written(existing, values, preserve, template)) == OrderedKeys(template, existing, merged);
  }

  /** Listing in order the keys of a dictionary that begins with the template's, and nothing new after it. */
  lemma KeysComplete(template: Dict, d: Dict, again: Dict)
    requires KeysDistinct(d) && Listed(template) <= KeysOf(d)
    requires forall i :: 0 <= i < |again| ==> again[i].key in KeysOf(d)
    ensures OrderedKeys(template, d, again) == KeysOf(d)
  {
    AddKeysCompletes(Listed(template), d, |d|);
    assert KeysOf(d)[..|d|] == KeysOf(d);
    assert |d| <= |Listed(template)| ==> Listed(template) == KeysOf(d);
    AddKeysNone(KeysOf(d), again, |again|);
  }

  lemma StillListed(existing: Dict, values: Dict, preserve: set<string>, template: Dict, i: nat)
    requires KeysDistinct(values) && KeysDistinct(template)
    requires i < |Merged(Written(existing, values, preserve, template), values, preserve, template)|
    ensures var d := Written(existing, values, preserve, template);
            Merged(d, values, preserve, template)[i].key in KeysOf(d)
  {
    var d := Written(existing, values, preserve, template);
    var again := Merged(d, values, preserve, template);
    var key := again[i].key;
    GetNone(again, key);
    MergedGet(d, values, preserve, template, key);
    OutcomeIsFixed(existing, values, preserve, template, key);
    WrittenIs(existing, values, preserve, template, key);
    GetNone(d, key);
    var j :| 0 <= j < |d| && d[j].key == key;
    assert KeysOf(d)[j] == key;
  }

  /** Merging again changes nothing, neither values nor order. */
  lemma WritingIsIdempotent(existing: Dict, values: Dict, preserve: set<string>, template: Dict)
    requires KeysDistinct(values) && KeysDistinct(template)
    ensures var d := Written(existing, values, preserve, template); Written(d, values, preserve, template) == d
  {
    var d := Written(existing, values, preserve, template);
    KeysAreFixed(existing, values, preserve, template);
    WrittenIs(existing, values, preserve, template, "");
    var again := Written(d, values, preserve, template);
    forall i | 0 <= i < |d|
      ensures again[i] == d[i]
    {
      MergedGet(d, values, preserve, template, d[i].key);
      OutcomeIsFixed(existing, values, preserve, template, d[i].key);
      WrittenIs(existing, values, preserve, template, d[i].key);
      GetAt(d, i);
    }
  }

  /**
   * The file reads back as what was merged: every key has its outcome, no other key is there, and writing the same
   * values once more leaves the file as it is.
   */
  lemma {:induction false} WriteReadsBack(text: Option<string>, values: Dict, preserve: set<string>, template: Dict,
                                          codec: Codec, key: string)
    requires Faithful(codec) && KeysDistinct(values) && KeysDistinct(template)
    requires var existing := if text.None? then Some([]) else ParseEnvText(text.value, codec);
             existing.Some? && Printable(Written(existing.value, values, preserve, template))
    ensures var existing := if text.None? then [] else ParseEnvText(text.value, codec).value;
            var written := WriteEnv(text, values, preserve, template, codec);
            && written.Some?
            && var read := ParseEnvText(written.value, codec);
               && read.Some? && KeysDistinct(read.value)
               && Get(read.value, key) == Outcome(existing, values, preserve, template, key)
               && WriteEnv(written, values, preserve, template, codec) == written
  {
    var existing := if text.None? then [] else ParseEnvText(text.value, codec).value;
    var d := Written(existing, values, preserve, template);
    WrittenIs(existing, values, preserve, template, key);
    FileRoundTrip(d, codec);
    WritingIsIdempotent(existing, values, preserve, template);
  }

  // ---------------------------------------------------------------- exactly when it reads back

  lemma {:induction false} PutKeysValid(d: Dict, e: Entry)
    requires ValidKeys(d) && ValidKey(e.key)
    ensures ValidKeys(Put(d, e))
  {
    if d != [] && d[0].key != e.key {
      assert forall i :: 0 <= i < |d[1..]| ==> d[1..][i] == d[i + 1];
      PutKeysValid(d[1..], e);
    }
  }

  lemma {:induction false} FoldKeysValid(parsed: seq<Parsed>, k: nat)
    requires k <= |parsed|
    requires forall i :: 0 <= i < |parsed| && parsed[i].Assignment? ==> ValidKey(parsed[i].entry.key)
    ensures Fold(parsed, k).Some? ==> ValidKeys(Fold(parsed, k).value)
  {
    if k > 0 {
      FoldKeysValid(parsed, k - 1);
      if Fold(parsed, k - 1).Some? && parsed[k - 1].Assignment? {
        PutKeysValid(Fold(parsed, k - 1).value, parsed[k - 1].entry);
      }
    }
  }

  lemma LineKeyValid(line: string, codec: Codec)
    ensures ParseLine(line, codec).Assignment? ==> ValidKey(ParseLine(line, codec).entry.key)
  {
  }

  /** Whatever a file parses to has valid keys. */
  lemma ParsedKeysValid(text: string, codec: Codec)
    ensures ParseEnvText(text, codec).Some? ==> ValidKeys(ParseEnvText(text, codec).value)
  {
    var lines := SplitLines(text);
    var parsed := ParseAll(lines, codec);
    forall i | 0 <= i < |parsed|
      ensures parsed[i].Assignment? ==> ValidKey(parsed[i].entry.key)
    {
      LineKeyValid(lines[i], codec);
    }
    FoldKeysValid(parsed, |parsed|);
  }

  lemma {:induction false} KeyValid(d: Dict, key: string)
    requires ValidKeys(d) && Get(d, key).Some?
    ensures ValidKey(key)
  {
    GetNone(d, key);
  }

  lemma WrittenKeysValid(existing: Dict, values: Dict, preserve: set<string>, template: Dict)
    requires KeysDistinct(values) && KeysDistinct(template)
    requires ValidKeys(existing) && ValidKeys(values) && ValidKeys(template)
    ensures ValidKeys(Written(existing, values, preserve, template))
  {
    var d := Written(existing, values, preserve, template);
    forall i | 0 <= i < |d|
      ensures ValidKey(d[i].key)
    {
      var key := d[i].key;
      WrittenIs(existing, values, preserve, template, key);
      GetAt(d, i);
      if Get(existing, key).Some? {
        KeyValid(existing, key);
      } else if Get(template, key).Some? {
        KeyValid(template, key);
      } else {
        KeyValid(values, key);
      }
    }
  }

  /**
   For any file that parses and any values and template with valid, distinct keys: the rewritten file reads back as what
   was merged if and only if every merged value has no line break and is ASCII or needs no quotes.
   */
  lemma ReadsBackIff(text: Option<string>, values: Dict, preserve: set<string>, template: Dict, codec: Codec)
    requires Faithful(codec) && KeysDistinct(values) && KeysDistinct(template)
    requires ValidKeys(values) && ValidKeys(template)
    requires text.Some? ==> ParseEnvText(text.value, codec).Some?
    ensures var existing := if text.None? then [] else ParseEnvText(text.value, codec).value;
            var written := WriteEnv(text, values, preserve, template, codec);
            var d := Written(existing, values, preserve, template);
            && written.Some?
            && (ParseEnvText(written.value, codec) == Some(d) <==> forall i :: 0 <= i < |d| ==> Fine(d[i].value))
  {
    var existing := if text.None? then [] else ParseEnvText(text.value, codec).value;
    if text.Some? { ParsedKeysValid(text.value, codec); }
    WrittenKeysValid(existing, values, preserve, template);
    WrittenIs(existing, values, preserve, template, "");
    FileRoundTripIff(Written(existing, values, preserve, template), codec);
  }
}
