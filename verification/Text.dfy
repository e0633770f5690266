/** The string operations the text formats rest on: white space, lines, fields and case. */
module Text {

  /** White space as the program's string library defines it. */
  predicate IsSpace(c: char) {
    var n := c as int;
    || 0x09 <= n <= 0x0D || n == 0x20 || n == 0x85 || n == 0xA0 || n == 0x1680
    || 0x2000 <= n <= 0x200A || n == 0x2028 || n == 0x2029 || n == 0x202F || n == 0x205F || n == 0x3000
  }

  function TrimLeft(s: string): string {
    if s != "" && IsSpace(s[0]) then TrimLeft(s[1..]) else s
  }

  function TrimRight(s: string): string {
    if s != "" && IsSpace(s[|s| - 1]) then TrimRight(s[..|s| - 1]) else s
  }

  function Trim(s: string): string {
    TrimRight(TrimLeft(s))
  }

  predicate Trimmed(s: string) {
    s != "" ==> !IsSpace(s[0]) && !IsSpace(s[|s| - 1])
  }

  lemma {:induction false} TrimLeftIsSuffix(s: string)
    ensures |TrimLeft(s)| <= |s| && TrimLeft(s) == s[|s| - |TrimLeft(s)|..]
    ensures TrimLeft(s) != "" ==> !IsSpace(TrimLeft(s)[0])
  {
    if s != "" && IsSpace(s[0]) {
      TrimLeftIsSuffix(s[1..]);
    }
  }

  lemma {:induction false} TrimRightIsPrefix(s: string)
    ensures |TrimRight(s)| <= |s| && TrimRight(s) == s[..|TrimRight(s)|]
    ensures TrimRight(s) != "" ==> !IsSpace(TrimRight(s)[|TrimRight(s)| - 1])
  {
    if s != "" && IsSpace(s[|s| - 1]) {
      TrimRightIsPrefix(s[..|s| - 1]);
    }
  }

  /** Trimming takes a middle part that starts and ends without space, and keeps every other character there. */
  lemma TrimLaw(s: string)
    ensures Trimmed(Trim(s))
    ensures forall c :: c in Trim(s) ==> c in s
    ensures s != "" && !IsSpace(s[0]) ==> Trim(s) != "" && Trim(s)[0] == s[0]
  {
    var t := TrimLeft(s);
    TrimLeftIsSuffix(s);
    TrimRightIsPrefix(t);
    if s != "" && !IsSpace(s[0]) {
      TrimRightKeepsFirst(s);
    }
  }

  lemma TrimShortens(s: string)
    ensures |Trim(s)| <= |s|
  {
    TrimLeftIsSuffix(s);
    TrimRightIsPrefix(TrimLeft(s));
  }

  lemma {:induction false} TrimRightKeepsFirst(s: string)
    requires s != "" && !IsSpace(s[0])
    ensures TrimRight(s) != "" && TrimRight(s)[0] == s[0]
  {
    if IsSpace(s[|s| - 1]) {
      TrimRightKeepsFirst(s[..|s| - 1]);
    }
  }

  /** A trimmed string survives a space added at either end. */
  lemma TrimPadded(s: string)
    requires Trimmed(s) && s != ""
    ensures Trim(s) == s && Trim(s + " ") == s && Trim(" " + s) == s
  {
    assert TrimLeft(s + " ") == s + " ";
    assert (s + " ")[..|s|] == s;
    assert (" " + s)[1..] == s;
    assert TrimLeft(" " + s) == TrimLeft(s) == s;
  }

  predicate AllSpace(s: string) {
    forall i :: 0 <= i < |s| ==> IsSpace(s[i])
  }

  lemma SpaceHasNoEquals(s: string)
    requires AllSpace(s)
    ensures '=' !in s
  {
    assert !IsSpace('=');
  }

  lemma {:induction false} TrimLeftGap(gap: string, s: string)
    requires AllSpace(gap) && s != "" && !IsSpace(s[0])
    ensures TrimLeft(gap + s) == s
  {
    if gap == "" {
      assert gap + s == s;
    } else {
      TrimLeftGap(gap[1..], s);
      assert (gap + s)[1..] == gap[1..] + s;
    }
  }

  lemma {:induction false} TrimRightGap(s: string, gap: string)
    requires AllSpace(gap) && s != "" && !IsSpace(s[|s| - 1])
    ensures TrimRight(s + gap) == s
  {
    if gap == "" {
      assert s + gap == s;
    } else {
      TrimRightGap(s, gap[..|gap| - 1]);
      assert (s + gap)[..|s + gap| - 1] == s + gap[..|gap| - 1];
    }
  }

  /** White space around a trimmed string is trimmed away. */
  lemma TrimGapLeft(gap: string, s: string)
    requires AllSpace(gap) && Trimmed(s) && s != ""
    ensures Trim(gap + s) == s
  {
    TrimLeftGap(gap, s);
    TrimPadded(s);
  }

  lemma TrimGapRight(s: string, gap: string)
    requires AllSpace(gap) && Trimmed(s) && s != ""
    ensures Trim(s + gap) == s
  {
    assert TrimLeft(s + gap) == s + gap;
    TrimRightGap(s, gap);
  }

  lemma {:induction false} TrimLeftParts(s: string) returns (gap: string)
    ensures AllSpace(gap) && s == gap + TrimLeft(s)
  {
    if s != "" && IsSpace(s[0]) {
      gap := TrimLeftParts(s[1..]);
      gap := [s[0]] + gap;
    } else {
      gap := "";
    }
  }

  lemma {:induction false} TrimRightParts(s: string) returns (gap: string)
    ensures AllSpace(gap) && s == TrimRight(s) + gap
  {
    if s != "" && IsSpace(s[|s| - 1]) {
      gap := TrimRightParts(s[..|s| - 1]);
      gap := gap + [s[|s| - 1]];
    } else {
      gap := "";
    }
  }

  // Lines

  /** The first index of a character, or -1. */
  function IndexOf(s: string, c: char): (i: int)
    ensures -1 <= i < |s|
    ensures i >= 0 ==> s[i] == c && forall j :: 0 <= j < i ==> s[j] != c
    ensures i < 0 ==> c !in s
  {
    if s == "" then -1
    else if s[0] == c then 0
    else
      var i := IndexOf(s[1..], c);
      assert forall j :: 1 <= j < |s| ==> s[j] == s[1..][j - 1];
      if i < 0 then -1 else i + 1
  }

  lemma IndexOfCut(a: string, c: char, b: string)
    requires c !in a
    ensures IndexOf(a + [c] + b, c) == |a|
  {
    var s := a + [c] + b;
    assert s[|a|] == c && c in s;
    assert forall j :: 0 <= j < |a| ==> s[j] == a[j] && s[j] in a;
  }

  function DropCr(line: string): string {
    if line != "" && line[|line| - 1] == '\r' then line[..|line| - 1] else line
  }

  /** The lines of a text: ended by a newline or the end of a non-empty rest, one carriage return dropped. */
  function Lines(text: string): seq<string> {
    if text == "" then []
    else
      var i := IndexOf(text, '\n');
      if i < 0 then [DropCr(text)] else [DropCr(text[..i])] + Lines(text[i + 1..])
  }

  lemma LinesCons(line: string, rest: string)
    requires '\n' !in line
    ensures Lines(line + "\n" + rest) == [DropCr(line)] + Lines(rest)
  {
    var text := line + ['\n'] + rest;
    IndexOfCut(line, '\n', rest);
    assert text[..|line|] == line && text[|line| + 1..] == rest;
  }

  lemma {:induction false} LinesHaveNoNewline(text: string)
    ensures forall i :: 0 <= i < |Lines(text)| ==> '\n' !in Lines(text)[i]
    decreases |text|
  {
    if text != "" {
      var i := IndexOf(text, '\n');
      if i >= 0 { LinesHaveNoNewline(text[i + 1..]); }
    }
  }

  // The scanner

  /** The longest line the scanner takes: its buffer of 64 KiB must hold the line and one byte more. */
  const MAX_LINE: nat := 65535

  /** The lines scanned, and whether that was the whole text or a line was too long. */
  datatype Scanned = Scanned(lines: seq<string>, whole: bool)

  function ScanLines(limit: nat, text: string): Scanned {
    if text == "" then Scanned([], true)
    else
      var i := IndexOf(text, '\n');
      var line := if i < 0 then text else text[..i];
      if |line| > limit then Scanned([], false)
      else if i < 0 then Scanned([DropCr(line)], true)
      else
        var rest := ScanLines(limit, text[i + 1..]);
        Scanned([DropCr(line)] + rest.lines, rest.whole)
  }

  predicate Fits(limit: nat, text: string) {
    ScanLines(limit, text).whole
  }

  lemma {:induction false} FittingLines(limit: nat, text: string)
    requires Fits(limit, text)
    ensures ScanLines(limit, text).lines == Lines(text)
    decreases |text|
  {
    if text != "" {
      var i := IndexOf(text, '\n');
      if i >= 0 { FittingLines(limit, text[i + 1..]); }
    }
  }

  predicate ShortLines(limit: nat, lines: seq<string>) {
    forall i :: 0 <= i < |lines| ==> '\n' !in lines[i] && |lines[i]| <= limit
  }

  lemma {:induction false} ScannedAreShort(limit: nat, text: string)
    ensures ShortLines(limit, ScanLines(limit, text).lines)
    decreases |text|
  {
    if text != "" {
      var i := IndexOf(text, '\n');
      if i < 0 {
        LineIsShort(limit, text);
      } else {
        LineIsShort(limit, text[..i]);
        ScannedAreShort(limit, text[i + 1..]);
        ShortCons(limit, DropCr(text[..i]), ScanLines(limit, text[i + 1..]).lines);
      }
    }
  }

  lemma LineIsShort(limit: nat, line: string)
    requires '\n' !in line
    ensures '\n' !in DropCr(line) && (|line| <= limit ==> |DropCr(line)| <= limit)
  {}

  lemma ShortCons(limit: nat, line: string, lines: seq<string>)
    requires '\n' !in line && ShortLines(limit, lines)
    ensures |line| <= limit ==> ShortLines(limit, [line] + lines)
  {
    assert forall i :: 1 <= i < |[line] + lines| ==> ([line] + lines)[i] == lines[i - 1];
  }

  /** A line of its own fits when it is not too long. */
  lemma FitsCons(limit: nat, line: string, rest: string)
    requires '\n' !in line
    ensures Fits(limit, line + "\n" + rest) <==> |line| <= limit && Fits(limit, rest)
  {
    var text := line + ['\n'] + rest;
    IndexOfCut(line, '\n', rest);
    assert text[..|line|] == line && text[|line| + 1..] == rest;
  }

  // Fields

  /** The index of the first space, or the length. */
  function SpaceAt(s: string): (i: nat)
    ensures i <= |s| && (i < |s| ==> IsSpace(s[i]))
    ensures forall j :: 0 <= j < i ==> !IsSpace(s[j])
  {
    if s == "" || IsSpace(s[0]) then 0
    else
      assert forall j :: 1 <= j < |s| ==> s[j] == s[1..][j - 1];
      1 + SpaceAt(s[1..])
  }

  /** The parts of a string between runs of white space. */
  function Fields(s: string): (fields: seq<string>)
    ensures fields != [] ==> |fields[0]| <= |s|
    decreases |s|
  {
    TrimLeftIsSuffix(s);
    var t := TrimLeft(s);
    if t == "" then [] else [t[..SpaceAt(t)]] + Fields(t[SpaceAt(t)..])
  }

  lemma FirstFieldOf(s: string)
    requires s != "" && !IsSpace(s[0])
    ensures Fields(s) == [s[..SpaceAt(s)]] + Fields(s[SpaceAt(s)..])
    ensures SpaceAt(s) > 0 && forall c :: c in s[..SpaceAt(s)] ==> !IsSpace(c)
  {
    assert TrimLeft(s) == s;
  }

  /** A string without white space in front of a gap is the first field. */
  lemma FirstField(k: string, rest: string)
    requires k != "" && (forall c :: c in k ==> !IsSpace(c)) && rest != "" && IsSpace(rest[0])
    ensures Fields(k + rest) == [k] + Fields(rest)
  {
    var s := k + rest;
    assert forall i :: 0 <= i < |k| ==> s[i] == k[i] && k[i] in k;
    assert TrimLeft(s) == s;
    assert SpaceAt(s) == |k| by { assert s[|k|] == rest[0]; }
    assert s[..|k|] == k && s[|k|..] == rest;
  }

  lemma GapHasField(gap: string, s: string)
    requires AllSpace(gap) && s != "" && !IsSpace(s[0])
    ensures Fields(gap + s) != []
  {
    TrimLeftGap(gap, s);
  }

  // Case

  function LowerChar(c: char): char {
    if 'A' <= c <= 'Z' then (c as int + 32) as char else c
  }

  function Lower(s: string): string {
    seq(|s|, i requires 0 <= i < |s| => LowerChar(s[i]))
  }

  predicate EqualFold(a: string, b: string) {
    Lower(a) == Lower(b)
  }

  /** The characters are equal or the two cases of one letter. */
  predicate SameLetter(c: char, d: char) {
    || c == d
    || ('A' <= c <= 'Z' && d as int == c as int + 32)
    || ('A' <= d <= 'Z' && c as int == d as int + 32)
  }

  lemma EqualFoldIff(a: string, b: string)
    ensures EqualFold(a, b) <==> |a| == |b| && forall i :: 0 <= i < |a| ==> SameLetter(a[i], b[i])
  {
    if EqualFold(a, b) {
      assert |Lower(a)| == |a| && |Lower(b)| == |b|;
      assert forall i :: 0 <= i < |a| ==> Lower(a)[i] == LowerChar(a[i]) && Lower(b)[i] == LowerChar(b[i]);
    }
  }

  lemma EqualFoldAt(a: string, b: string, i: nat)
    requires EqualFold(a, b) && i < |a|
    ensures |a| == |b| && LowerChar(a[i]) == LowerChar(b[i])
  {
    assert Lower(a)[i] == Lower(b)[i];
  }
}
