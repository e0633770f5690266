/** Configuration files: lines of "Key = Value" or "Key Value". */
module Config {
  import opened Results
  import opened Text

  datatype Entry = Entry(key: string, value: string)

  // Keys

  /** The canonical spelling of a key: the first name in the table that differs only in case, else the key. */
  function CanonicalKey(names: seq<string>, k: string): string {
    if names == [] then k
    else if EqualFold(names[0], k) then names[0]
    else CanonicalKey(names[1..], k)
  }

  /** The name at place `i` is the first in the table that differs from the key only in case. */
  ghost predicate FirstFold(names: seq<string>, k: string, i: nat) {
    && i < |names| && EqualFold(names[i], k)
    && forall j :: 0 <= j < i ==> !EqualFold(names[j], k)
  }

  /** A key gets the spelling of the first name it folds to, and stays as it is if there is none. */
  lemma {:induction false} CanonicalKeyIsFirstFold(names: seq<string>, k: string)
    ensures forall i: nat :: FirstFold(names, k, i) ==> CanonicalKey(names, k) == names[i]
    ensures (exists i :: 0 <= i < |names| && EqualFold(names[i], k)) ==> CanonicalKey(names, k) in names
    ensures (forall i :: 0 <= i < |names| ==> !EqualFold(names[i], k)) ==> CanonicalKey(names, k) == k
  {
    if names != [] && !EqualFold(names[0], k) {
      var rest := names[1..];
      CanonicalKeyIsFirstFold(rest, k);
      assert forall j :: 0 <= j < |rest| ==> rest[j] == names[j + 1];
      assert forall j :: 1 <= j < |names| ==> names[j] == rest[j - 1];
      forall i: nat | FirstFold(names, k, i) ensures CanonicalKey(names, k) == names[i] {
        assert FirstFold(rest, k, i - 1);
      }
    }
  }

  lemma {:induction false} CanonicalKeyFolds(names: seq<string>, k: string)
    ensures EqualFold(CanonicalKey(names, k), k)
  {
    if names != [] && !EqualFold(names[0], k) {
      CanonicalKeyFolds(names[1..], k);
    }
  }

  lemma {:induction false} CanonicalKeyByFold(names: seq<string>, k: string, j: string)
    requires EqualFold(k, j)
    ensures || CanonicalKey(names, k) == CanonicalKey(names, j)
            || (CanonicalKey(names, k) == k && CanonicalKey(names, j) == j)
  {
    if names != [] && !EqualFold(names[0], k) {
      CanonicalKeyByFold(names[1..], k, j);
    }
  }

  /** Canonical spellings are their own canonical spelling, whatever the table. */
  lemma CanonicalKeyIdempotent(names: seq<string>, k: string)
    ensures CanonicalKey(names, CanonicalKey(names, k)) == CanonicalKey(names, k)
  {
    CanonicalKeyFolds(names, k);
    CanonicalKeyByFold(names, CanonicalKey(names, k), k);
  }

  predicate ValidKey(k: string) {
    k != "" && Trimmed(k) && '=' !in k && '\n' !in k && k[0] != '#'
  }

  predicate ValidValue(v: string) {
    v != "" && Trimmed(v) && '\n' !in v
  }

  /** Case does not decide whether a key can be written to a file. */
  lemma ValidKeyFolds(k: string, j: string)
    requires EqualFold(k, j) && ValidKey(k)
    ensures ValidKey(j)
  {
    EqualFoldAt(k, j, 0);
    EqualFoldAt(k, j, |k| - 1);
    forall i | 0 <= i < |j| ensures j[i] != '=' && j[i] != '\n' {
      EqualFoldAt(k, j, i);
      assert k[i] in k;
    }
  }

  // Parsing

  function MakeEntry(names: seq<string>, key: string, value: string): Result<Entry> {
    if key == "" then Err("empty key")
    else if value == "" then Err("empty value")
    else Ok(Entry(CanonicalKey(names, key), value))
  }

  /** A line with '=' is cut there, any other line after its first field. */
  function ParseLine(names: seq<string>, s: string): Result<Entry> {
    var i := IndexOf(s, '=');
    if i >= 0 then MakeEntry(names, Trim(s[..i]), Trim(s[i + 1..]))
    else if |Fields(s)| < 2 then Err("missing value")
    else MakeEntry(names, Fields(s)[0], Trim(s[|Fields(s)[0]|..]))
  }

  predicate Skipped(line: string) {
    line == "" || line[0] == '#'
  }

  function Prepend<T>(xs: seq<T>, r: Result<seq<T>>): Result<seq<T>> {
    if r.Ok? then Ok(xs + r.value) else r
  }

  lemma PrependNone<T>(r: Result<seq<T>>)
    ensures Prepend([], r) == r
  {
    assert r.Ok? ==> [] + r.value == r.value;
  }

  lemma PrependTwice<T>(xs: seq<T>, ys: seq<T>, r: Result<seq<T>>)
    ensures Prepend(xs, Prepend(ys, r)) == Prepend(xs + ys, r)
  {
    assert r.Ok? ==> xs + (ys + r.value) == xs + ys + r.value;
  }

  function ParseLines(names: seq<string>, lines: seq<string>): Result<seq<Entry>> {
    if lines == [] then Ok([])
    else if Skipped(Trim(lines[0])) then ParseLines(names, lines[1..])
    else
      var e := ParseLine(names, Trim(lines[0]));
      if e.Err? then Err(e.error) else Prepend([e.value], ParseLines(names, lines[1..]))
  }

  function ParseText(names: seq<string>, text: string): Result<seq<Entry>> {
    ParseLines(names, Lines(text))
  }

  /** Parsing as far as the scanner gets; a line that is too long is the error unless an earlier line is one. */
  function ParseWithin(limit: nat, names: seq<string>, text: string): Result<seq<Entry>> {
    var scanned := ScanLines(limit, text);
    var r := ParseLines(names, scanned.lines);
    if r.Ok? && !scanned.whole then Err("token too long") else r
  }

  lemma WithinIff(limit: nat, names: seq<string>, text: string)
    ensures ParseWithin(limit, names, text).Ok? <==> Fits(limit, text) && ParseText(names, text).Ok?
    ensures ParseWithin(limit, names, text).Ok? ==> ParseWithin(limit, names, text) == ParseText(names, text)
  {
    if Fits(limit, text) { FittingLines(limit, text); }
  }

  method Parse(limit: nat, names: seq<string>, text: string) returns (r: Result<seq<Entry>>)
    ensures r == ParseWithin(limit, names, text)
  {
    var scanned, out := ScanLines(limit, text), [];
    var lines := scanned.lines;
    PrependNone(ParseLines(names, lines));
    for i := 0 to |lines|
      invariant ParseLines(names, lines) == Prepend(out, ParseLines(names, lines[i..]))
    {
      var line := Trim(lines[i]);
      if !Skipped(line) {
        var e := ParseLine(names, line);
        if e.Err? {
          return Err(e.error);
        }
        PrependTwice(out, [e.value], ParseLines(names, lines[i + 1..]));
        out := out + [e.value];
      }
    }
    assert out + [] == out;
    if !scanned.whole {
      return Err("token too long");
    }
    return Ok(out);
  }

  // Rendering

  function RenderLine(e: Entry): string {
    e.key + " = " + e.value
  }

  function RenderAll(es: seq<Entry>): string {
    if es == [] then "" else RenderLine(es[0]) + "\n" + RenderAll(es[1..])
  }

  /** A file is written line by line in the form "k = v". */
  lemma {:induction false} RenderAllOneMore(es: seq<Entry>, e: Entry)
    ensures RenderAll(es + [e]) == RenderAll(es) + (e.key + " = " + e.value + "\n")
  {
    if es == [] {
      assert es + [e] == [e] && [e][1..] == [];
    } else {
      RenderAllOneMore(es[1..], e);
      assert (es + [e])[1..] == es[1..] + [e] && (es + [e])[0] == es[0];
    }
  }

  method Render(es: seq<Entry>) returns (b: string)
    ensures b == RenderAll(es)
  {
    b := "";
    for i := 0 to |es|
      invariant RenderAll(es) == b + RenderAll(es[i..])
    {
      b := b + RenderLine(es[i]) + "\n";
    }
  }

  // Round trips

  predicate ValidEntry(e: Entry) {
    ValidKey(e.key) && ValidValue(e.value)
  }

  /** What a file can hold: entries that can be written, with keys in canonical spelling. */
  ghost predicate WellFormed(names: seq<string>, es: seq<Entry>) {
    forall e :: e in es ==> ValidEntry(e) && CanonicalKey(names, e.key) == e.key
  }

  /** The line of an entry that can be written reads back as the entry, its key in canonical spelling. */
  lemma RenderedLineParses(names: seq<string>, e: Entry)
    requires ValidEntry(e)
    ensures '\n' !in RenderLine(e) && Trimmed(RenderLine(e)) && !Skipped(RenderLine(e))
    ensures ParseLine(names, RenderLine(e)) == Ok(Entry(CanonicalKey(names, e.key), e.value))
  {
    var left, right := e.key + " ", " " + e.value;
    RenderedLineShape(e);
    IndexOfCut(left, '=', right);
    assert (left + ['='] + right)[..|left|] == left && (left + ['='] + right)[|left| + 1..] == right;
    TrimPadded(e.key);
    TrimPadded(e.value);
  }

  lemma RenderedLineShape(e: Entry)
    requires ValidEntry(e)
    ensures RenderLine(e) == (e.key + " ") + ['='] + (" " + e.value)
    ensures '\n' !in RenderLine(e) && Trimmed(RenderLine(e)) && !Skipped(RenderLine(e))
  {
    var s := RenderLine(e);
    assert s == (e.key + " ") + ['='] + (" " + e.value);
    assert s[0] == e.key[0] && s[|s| - 1] == e.value[|e.value| - 1];
  }

  /** With '=' and any white space around it a line gives key and value; without '=', with white space between them. */
  lemma LineForms(names: seq<string>, k: string, gap: string, gap': string, v: string)
    requires ValidKey(k) && ValidValue(v) && AllSpace(gap) && AllSpace(gap')
    ensures ParseLine(names, k + gap + ['='] + (gap' + v)) == Ok(Entry(CanonicalKey(names, k), v))
    ensures (forall c :: c in k ==> !IsSpace(c)) && gap != "" && '=' !in gap + v ==>
              ParseLine(names, k + (gap + v)) == Ok(Entry(CanonicalKey(names, k), v))
  {
    EqualsForm(names, k, gap, gap', v);
    if (forall c :: c in k ==> !IsSpace(c)) && gap != "" && '=' !in gap + v {
      SpaceForm(names, k, gap, v);
    }
  }

  lemma EqualsForm(names: seq<string>, k: string, gap: string, gap': string, v: string)
    requires ValidKey(k) && ValidValue(v) && AllSpace(gap) && AllSpace(gap')
    ensures ParseLine(names, k + gap + ['='] + (gap' + v)) == Ok(Entry(CanonicalKey(names, k), v))
  {
    var left, right := k + gap, gap' + v;
    var s := left + ['='] + right;
    SpaceHasNoEquals(gap);
    IndexOfCut(left, '=', right);
    assert s[..|left|] == left && s[|left| + 1..] == right;
    TrimGapRight(k, gap);
    TrimGapLeft(gap', v);
  }

  lemma SpaceForm(names: seq<string>, k: string, gap: string, v: string)
    requires ValidKey(k) && ValidValue(v) && AllSpace(gap) && gap != ""
    requires (forall c :: c in k ==> !IsSpace(c)) && '=' !in gap + v
    ensures ParseLine(names, k + (gap + v)) == Ok(Entry(CanonicalKey(names, k), v))
  {
    var s := k + (gap + v);
    assert '=' !in s;
    assert IndexOf(s, '=') < 0;
    FirstField(k, gap + v);
    TrimGapLeft(gap, v);
    GapHasField(gap, v);
    assert s[|k|..] == gap + v;
  }

  ghost predicate EqualsLine(s: string, k: string, gap: string, gap': string, v: string) {
    ValidKey(k) && ValidValue(v) && AllSpace(gap) && AllSpace(gap') && s == k + gap + ['='] + (gap' + v)
  }

  ghost predicate SpaceLine(s: string, k: string, gap: string, v: string) {
    && ValidKey(k) && ValidValue(v) && AllSpace(gap) && gap != "" && s == k + (gap + v)
    && (forall c :: c in k ==> !IsSpace(c)) && '=' !in gap + v
  }

  /** No other line is taken. */
  lemma LineParsesIff(names: seq<string>, s: string)
    requires Trimmed(s) && !Skipped(s) && '\n' !in s
    ensures ParseLine(names, s).Ok? <==>
              (exists k, gap, gap', v :: EqualsLine(s, k, gap, gap', v)) || exists k, gap, v :: SpaceLine(s, k, gap, v)
  {
    if k, gap, gap', v :| EqualsLine(s, k, gap, gap', v) {
      EqualsForm(names, k, gap, gap', v);
    }
    if k, gap, v :| SpaceLine(s, k, gap, v) {
      SpaceForm(names, k, gap, v);
    }
    if ParseLine(names, s).Ok? {
      TakenLine(names, s);
      TakenParts(s, IndexOf(s, '='));
    }
  }

  lemma TakenParts(s: string, i: int)
    requires Trimmed(s) && !Skipped(s) && '\n' !in s && i == IndexOf(s, '=')
    requires if i >= 0 then Trim(s[..i]) != "" && Trim(s[i + 1..]) != "" else '=' !in s && Trim(s[SpaceAt(s)..]) != ""
    ensures (exists k, gap, gap', v :: EqualsLine(s, k, gap, gap', v)) || exists k, gap, v :: SpaceLine(s, k, gap, v)
  {
    if i >= 0 {
      var gap := KeyThenGap(s, i);
      var gap' := GapThenValue(s, i + 1);
      EqualsParts(s, i, Trim(s[..i]), gap, gap', Trim(s[i + 1..]));
    } else {
      var gap := GapThenValue(s, SpaceAt(s));
      SpaceParts(s, SpaceAt(s), gap, Trim(s[SpaceAt(s)..]));
    }
  }

  /** What is around the '=' of a line that is taken, or after its first field, is not blank. */
  lemma TakenLine(names: seq<string>, s: string)
    requires Trimmed(s) && !Skipped(s) && ParseLine(names, s).Ok?
    ensures var i := IndexOf(s, '=');
            if i >= 0 then Trim(s[..i]) != "" && Trim(s[i + 1..]) != "" else '=' !in s && Trim(s[SpaceAt(s)..]) != ""
  {
    FirstFieldOf(s);
  }

  lemma EqualsParts(s: string, i: nat, k: string, gap: string, gap': string, v: string)
    requires i < |s| && s[i] == '=' && s[..i] == k + gap && s[i + 1..] == gap' + v
    requires ValidKey(k) && ValidValue(v) && AllSpace(gap) && AllSpace(gap')
    ensures EqualsLine(s, k, gap, gap', v)
  {
    assert s == s[..i] + ['='] + s[i + 1..];
  }

  lemma SpaceParts(s: string, n: nat, gap: string, v: string)
    requires Trimmed(s) && !Skipped(s) && '\n' !in s && '=' !in s && n == SpaceAt(s)
    requires s[n..] == gap + v && AllSpace(gap) && ValidValue(v)
    ensures SpaceLine(s, s[..n], gap, v)
  {
    var k := s[..n];
    assert s == k + s[n..];
    assert n > 0 && k[0] == s[0];
    assert gap != "" by { assert s[n..][0] == s[n] && v[0] in v; }
  }

  lemma KeyThenGap(s: string, n: nat) returns (gap: string)
    requires Trimmed(s) && !Skipped(s) && '\n' !in s && n <= |s| && '=' !in s[..n] && Trim(s[..n]) != ""
    ensures AllSpace(gap) && s[..n] == Trim(s[..n]) + gap && ValidKey(Trim(s[..n]))
  {
    var left := s[..n];
    TrimLaw(left);
    assert left != "" && left[0] == s[0] && TrimLeft(left) == left;
    gap := TrimRightParts(left);
  }

  lemma GapThenValue(s: string, n: nat) returns (gap: string)
    requires Trimmed(s) && '\n' !in s && n <= |s| && Trim(s[n..]) != ""
    ensures AllSpace(gap) && s[n..] == gap + Trim(s[n..]) && ValidValue(Trim(s[n..]))
  {
    var right := s[n..];
    TrimLaw(right);
    assert right != "" && right[|right| - 1] == s[|s| - 1];
    KeepsLast(right);
    gap := TrimLeftParts(right);
  }

  /** A string that ends without space is trimmed on the left only. */
  lemma KeepsLast(s: string)
    requires TrimRight(s) == s
    ensures Trim(s) == TrimLeft(s)
  {
    TrimLeftIsSuffix(s);
    TrimRightIsPrefix(s);
  }

  /** Every other line gives one entry, or makes the whole text an error. */
  lemma LineAdds(names: seq<string>, line: string, rest: string)
    requires '\n' !in line && Trim(DropCr(line)) != "" && Trim(DropCr(line))[0] != '#'
    ensures var e := ParseLine(names, Trim(DropCr(line)));
            ParseText(names, line + "\n" + rest) ==
              if e.Err? then Err(e.error) else Prepend([e.value], ParseText(names, rest))
  {
    LinesCons(line, rest);
    assert Lines(line + "\n" + rest)[1..] == Lines(rest);
  }

  /** Blank lines and comments say nothing. */
  lemma SkippedLine(names: seq<string>, line: string, rest: string)
    requires '\n' !in line && (Trim(DropCr(line)) == "" || Trim(DropCr(line))[0] == '#')
    ensures ParseText(names, line + "\n" + rest) == ParseText(names, rest)
  {
    LinesCons(line, rest);
    assert Lines(line + "\n" + rest)[1..] == Lines(rest);
  }

  /** A line the parser takes yields an entry that can be written. */
  lemma ParsedLineValid(names: seq<string>, s: string)
    requires Trimmed(s) && !Skipped(s) && '\n' !in s && ParseLine(names, s).Ok?
    ensures var e := ParseLine(names, s).value; ValidEntry(e) && CanonicalKey(names, e.key) == e.key
  {
    var i := IndexOf(s, '=');
    var key := if i >= 0 then Trim(s[..i]) else Fields(s)[0];
    if i >= 0 {
      TrimLaw(s[..i]);
      TrimLaw(s[i + 1..]);
      assert s[..0] == "" && Trim("") == "";
      assert i > 0 && s[..i][0] == s[0];
    } else {
      assert TrimLeft(s) == s && key == s[..SpaceAt(s)];
      TrimLaw(s[|key|..]);
    }
    assert ValidKey(key);
    CanonicalKeyFolds(names, key);
    ValidKeyFolds(key, CanonicalKey(names, key));
    CanonicalKeyIdempotent(names, key);
  }

  /** Whatever text is accepted, its entries are well formed. */
  lemma {:induction false} ParsedLinesWellFormed(names: seq<string>, lines: seq<string>)
    requires forall i :: 0 <= i < |lines| ==> '\n' !in lines[i]
    requires ParseLines(names, lines).Ok?
    ensures WellFormed(names, ParseLines(names, lines).value)
  {
    if lines != [] {
      ParsedLinesWellFormed(names, lines[1..]);
      TrimLaw(lines[0]);
      if !Skipped(Trim(lines[0])) {
        ParsedLineValid(names, Trim(lines[0]));
      }
    }
  }

  lemma ParsedWellFormed(names: seq<string>, text: string)
    requires ParseText(names, text).Ok?
    ensures WellFormed(names, ParseText(names, text).value)
  {
    LinesHaveNoNewline(text);
    ParsedLinesWellFormed(names, Lines(text));
  }

  function Canonical(names: seq<string>, es: seq<Entry>): (r: seq<Entry>)
    ensures |r| == |es|
  {
    seq(|es|, i requires 0 <= i < |es| => es[i].(key := CanonicalKey(names, es[i].key)))
  }

  lemma RenderedEntryParses(names: seq<string>, e: Entry, rest: string)
    requires ValidEntry(e)
    ensures ParseText(names, RenderLine(e) + "\n" + rest) ==
              Prepend([e.(key := CanonicalKey(names, e.key))], ParseText(names, rest))
  {
    var line := RenderLine(e);
    RenderedLineParses(names, e);
    LinesCons(line, rest);
    assert DropCr(line) == line;
    TrimPadded(line);
    assert Lines(line + "\n" + rest)[1..] == Lines(rest);
  }

  /** Entries that can be written read back in order, their keys in canonical spelling. */
  lemma {:induction false} RenderedParses(names: seq<string>, es: seq<Entry>)
    requires forall e :: e in es ==> ValidEntry(e)
    ensures ParseText(names, RenderAll(es)) == Ok(Canonical(names, es))
  {
    if es != [] {
      RenderedParses(names, es[1..]);
      assert ValidEntry(es[0]);
      RenderedEntryParses(names, es[0], RenderAll(es[1..]));
      assert Canonical(names, es) == [es[0].(key := CanonicalKey(names, es[0].key))] + Canonical(names, es[1..]);
    }
  }

  /** Rendering and parsing gives the entries back exactly when they are well formed. */
  lemma RoundTripIffWellFormed(names: seq<string>, es: seq<Entry>)
    ensures ParseText(names, RenderAll(es)) == Ok(es) <==> WellFormed(names, es)
  {
    if WellFormed(names, es) {
      RenderedParses(names, es);
      assert Canonical(names, es) == es;
    }
    if ParseText(names, RenderAll(es)) == Ok(es) {
      ParsedWellFormed(names, RenderAll(es));
    }
  }

  predicate LinesFit(limit: nat, es: seq<Entry>) {
    forall i :: 0 <= i < |es| ==> |RenderLine(es[i])| <= limit
  }

  lemma {:induction false} RenderedFits(limit: nat, es: seq<Entry>, rest: string)
    requires forall e :: e in es ==> ValidEntry(e)
    ensures Fits(limit, RenderAll(es) + rest) <==> LinesFit(limit, es) && Fits(limit, rest)
  {
    if es == [] {
      assert RenderAll(es) + rest == rest;
    } else {
      RenderedFits(limit, es[1..], rest);
      RenderedLineShape(es[0]);
      FitsCons(limit, RenderLine(es[0]), RenderAll(es[1..]) + rest);
      assert RenderAll(es) + rest == RenderLine(es[0]) + "\n" + (RenderAll(es[1..]) + rest);
      assert LinesFit(limit, es) <==> |RenderLine(es[0])| <= limit && LinesFit(limit, es[1..]) by {
        assert forall i :: 0 <= i < |es[1..]| ==> es[1..][i] == es[i + 1];
        assert forall i :: 1 <= i < |es| ==> es[i] == es[1..][i - 1];
      }
    }
  }

  lemma RenderedFitsAlone(limit: nat, es: seq<Entry>)
    requires forall e :: e in es ==> ValidEntry(e)
    ensures Fits(limit, RenderAll(es)) <==> LinesFit(limit, es)
  {
    RenderedFits(limit, es, "");
    assert RenderAll(es) + "" == RenderAll(es);
  }

  /** With the limit on lines: the entries come back exactly when they are well formed and every line of theirs fits. */
  lemma RoundTripIffFits(limit: nat, names: seq<string>, es: seq<Entry>)
    ensures ParseWithin(limit, names, RenderAll(es)) == Ok(es) <==> WellFormed(names, es) && LinesFit(limit, es)
  {
    WithinIff(limit, names, RenderAll(es));
    RoundTripIffWellFormed(names, es);
    if WellFormed(names, es) {
      RenderedFitsAlone(limit, es);
    }
  }

  /**
  For every accepted text: what it says is what its rendering says, exactly when every rendered line fits. A line
  "k v" is rendered as "k = v", which is longer.
  */
  lemma ParseRenderParse(limit: nat, names: seq<string>, text: string)
    requires ParseWithin(limit, names, text).Ok?
    ensures var es := ParseWithin(limit, names, text).value;
            ParseWithin(limit, names, RenderAll(es)) == ParseWithin(limit, names, text) <==> LinesFit(limit, es)
  {
    WithinIff(limit, names, text);
    ParsedWellFormed(names, text);
    RoundTripIffFits(limit, names, ParseText(names, text).value);
  }
}
