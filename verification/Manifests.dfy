/** The text of a manifest: how the restorer prints it (workers/apt_restorer.go) and
    how the validator reads it back (validation/validator.go). */
module Manifests {
  import opened Collections
  import opened Text

  /** One manifest line: a digest and a path inside the bag. */
  datatype Entry = Entry(digest: string, path: string)

  /** The longest line a bufio.Scanner delivers is one shorter than this. */
  const MAX_TOKEN := 65536

  // ----- printing -----

  /** `fmt.Fprintln(file, digest, path)` without the final newline. */
  function Line(e: Entry): string {
    e.digest + " " + e.path
  }

  function Print(es: seq<Entry>): string {
    if |es| == 0 then "" else Line(es[0]) + "\n" + Print(es[1..])
  }

  // ----- reading -----

  /** The class `\s` of Go regular expressions. */
  predicate IsSpace(c: char) {
    c == ' ' || c == '\t' || c == '\n' || c == '\r' || c == '\U{0C}'
  }

  /** unicode.IsSpace, which strings.TrimSpace uses. */
  predicate IsUnicodeSpace(c: char) {
    IsSpace(c) || c == '\U{0B}' || c == '\U{85}' || c == '\U{A0}' || c == '\U{1680}'
    || ('\U{2000}' <= c <= '\U{200A}') || c == '\U{2028}' || c == '\U{2029}'
    || c == '\U{202F}' || c == '\U{205F}' || c == '\U{3000}'
  }

  predicate IsBlank(line: string) {
    forall i :: 0 <= i < |line| ==> IsUnicodeSpace(line[i])
  }

  function DropCR(line: string): string {
    if |line| > 0 && line[|line| - 1] == '\r' then line[..|line| - 1] else line
  }

  /** The lines a bufio.Scanner delivers. It stops without a word at a line too long for it. */
  function Scan(text: string): seq<string>
    decreases |text|
  {
    if text == "" then []
    else
      var n := Find(text, '\n', 0);
      if n >= MAX_TOKEN then []
      else if n == |text| then [DropCR(text)]
      else [DropCR(text[..n])] + Scan(text[n + 1..])
  }

  /** The longest prefix without white space, and what follows the white space after it. */
  function SpanWord(s: string, from: nat): (i: nat)
    requires from <= |s|
    ensures from <= i <= |s|
    ensures forall j :: from <= j < i ==> !IsSpace(s[j])
    ensures i < |s| ==> IsSpace(s[i])
    decreases |s| - from
  {
    if from == |s| || IsSpace(s[from]) then from else SpanWord(s, from + 1)
  }

  function SpanSpace(s: string, from: nat): (i: nat)
    requires from <= |s|
    ensures from <= i <= |s|
    ensures forall j :: from <= j < i ==> IsSpace(s[j])
    ensures i < |s| ==> !IsSpace(s[i])
    decreases |s| - from
  {
    if from == |s| || !IsSpace(s[from]) then from else SpanSpace(s, from + 1)
  }

  /** The two groups of `^(\S*)\s*(.*)`, which matches every line. */
  function ParseLine(line: string): Entry {
    var i := SpanWord(line, 0);
    var j := SpanSpace(line, i);
    Entry(line[..i], line[j..])
  }

  function ParseLines(lines: seq<string>): seq<Entry> {
    if |lines| == 0 then []
    else if IsBlank(lines[0]) then ParseLines(lines[1..])
    else [ParseLine(lines[0])] + ParseLines(lines[1..])
  }

  /** All entries that the validator takes from a manifest. */
  function Parse(text: string): seq<Entry> {
    ParseLines(Scan(text))
  }

  // ----- the round trip -----

  /** The entries that survive printing and parsing, in terms of their characters. */
  predicate Printable(e: Entry) {
    && (forall i :: 0 <= i < |e.digest| ==> !IsSpace(e.digest[i]))
    && '\n' !in e.path
    && (|e.path| > 0 ==> !IsSpace(e.path[0]) && e.path[|e.path| - 1] != '\r')
    && !(IsBlank(e.digest) && IsBlank(e.path))
    && |Line(e)| < MAX_TOKEN
  }

  predicate NoBreak(e: Entry) {
    '\n' !in e.digest && '\n' !in e.path
  }

  /** What the validator makes of one printed line: nothing, if it is blank. */
  function Echo(e: Entry): seq<Entry> {
    var line := DropCR(Line(e));
    if IsBlank(line) then [] else [ParseLine(line)]
  }

  lemma LineHasBreak(e: Entry)
    ensures ('\n' in Line(e)) == ('\n' in e.digest || '\n' in e.path)
  {
    var l := Line(e);
    assert forall i :: 0 <= i < |e.digest| ==> l[i] == e.digest[i];
    assert forall i :: 0 <= i < |e.path| ==> l[|e.digest| + 1 + i] == e.path[i];
  }

  lemma ScanFirstLine(line: string, rest: string)
    requires '\n' !in line
    ensures Scan(line + "\n" + rest) == if |line| >= MAX_TOKEN then [] else [DropCR(line)] + Scan(rest)
  {
    FindAfter(line, '\n', rest);
    HalvesAround(line, '\n', rest);
  }

  lemma PrintedLineIsScanned(e: Entry, es: seq<Entry>)
    requires |es| > 0 && es[0] == e && '\n' !in Line(e)
    ensures Parse(Print(es)) ==
            if |Line(e)| >= MAX_TOKEN then [] else Echo(e) + Parse(Print(es[1..]))
  {
    var rest := Print(es[1..]);
    ScanFirstLine(Line(e), rest);
    assert Print(es) == Line(e) + "\n" + rest;
    Halves([DropCR(Line(e))], Scan(rest));
  }

  /** A line of 65536 characters ends the reading of the manifest, and none of the lines after
      it is read; a shorter one does not. */
  lemma LongLineEndsTheManifest(e: Entry, es: seq<Entry>)
    requires '\n' !in Line(e)
    ensures Parse(Print([e] + es)) == if |Line(e)| >= 65536 then [] else Echo(e) + Parse(Print(es))
  {
    Halves([e], es);
    PrintedLineIsScanned(e, [e] + es);
  }

  lemma SpansAre(line: string, d: nat, p: nat)
    requires d <= p <= |line|
    requires forall j :: 0 <= j < d ==> !IsSpace(line[j])
    requires d < |line| ==> IsSpace(line[d])
    requires forall j :: d <= j < p ==> IsSpace(line[j])
    requires p < |line| ==> !IsSpace(line[p])
    ensures ParseLine(line) == Entry(line[..d], line[p..])
  {
    var i := SpanWord(line, 0);
    assert !(i < d) && !(d < i);
    var j := SpanSpace(line, i);
    assert !(j < p) && !(p < j);
  }

  lemma LineParts(e: Entry)
    ensures Line(e)[..|e.digest|] == e.digest && Line(e)[|e.digest|] == ' ' && Line(e)[|e.digest| + 1..] == e.path
    ensures |Line(e)| == |e.digest| + 1 + |e.path|
    ensures forall i :: 0 <= i < |e.digest| ==> Line(e)[i] == e.digest[i]
  {
    HalvesAround(e.digest, ' ', e.path);
  }

  lemma LineEnd(e: Entry)
    ensures DropCR(Line(e)) == Line(e) <==> !(|e.path| > 0 && e.path[|e.path| - 1] == '\r')
    ensures DropCR(Line(e)) != Line(e) ==> |DropCR(Line(e))| == |Line(e)| - 1
  {
    LineParts(e);
    if |e.path| > 0 {
      assert Line(e)[|e.digest| + 1..][|e.path| - 1] == Line(e)[|Line(e)| - 1];
    }
  }

  lemma PrintableEchoes(e: Entry)
    requires Printable(e)
    ensures Echo(e) == [e]
  {
    LineParts(e);
    LineEnd(e);
    BlankParts(e);
    if |e.path| > 0 {
      assert Line(e)[|e.digest| + 1..][0] == Line(e)[|e.digest| + 1];
    }
    SpansAre(Line(e), |e.digest|, |e.digest| + 1);
  }

  lemma EchoForcesPrintable(e: Entry)
    requires NoBreak(e) && |Line(e)| < MAX_TOKEN && Echo(e) == [e]
    ensures Printable(e)
  {
    LineParts(e);
    LineEnd(e);
    BlankParts(e);
    var line := DropCR(Line(e));
    var i := SpanWord(line, 0);
    var j := SpanSpace(line, i);
    assert e.digest == line[..i] && e.path == line[j..];
    assert |e.digest| == i && |e.path| == |line| - j;
    assert line == Line(e);
    assert j == i + 1;
  }

  lemma BlankParts(e: Entry)
    ensures IsBlank(Line(e)) == (IsBlank(e.digest) && IsBlank(e.path))
  {
    var raw, d := Line(e), |e.digest|;
    assert forall i :: 0 <= i < d ==> raw[i] == e.digest[i];
    assert forall i :: 0 <= i < |e.path| ==> raw[d + 1 + i] == e.path[i];
    if IsBlank(raw) {
      forall i | 0 <= i < |e.path| ensures IsUnicodeSpace(e.path[i]) {
        assert IsUnicodeSpace(raw[d + 1 + i]);
      }
    }
  }

  lemma ParseLineHasNoBreak(line: string)
    requires '\n' !in line
    ensures NoBreak(ParseLine(line))
  {
    var i := SpanWord(line, 0);
    var j := SpanSpace(line, i);
    assert forall k :: 0 <= k < i ==> line[..i][k] == line[k];
    assert forall k :: 0 <= k < |line| - j ==> line[j..][k] == line[j + k];
  }

  lemma PrefixHasNoBreak(text: string, n: nat)
    requires n <= |text| && forall j :: 0 <= j < n ==> text[j] != '\n'
    ensures '\n' !in DropCR(text[..n])
  {
    var t := DropCR(text[..n]);
    assert forall j :: 0 <= j < |t| ==> t[j] == text[j];
  }

  /** No entry read from a text holds a line break. */
  lemma {:induction false} ParsedHasNoBreaks(text: string)
    ensures forall e :: e in Parse(text) ==> NoBreak(e)
    decreases |text|
  {
    if text != "" {
      var n := Find(text, '\n', 0);
      if n < MAX_TOKEN {
        PrefixHasNoBreak(text, n);
        ParseLineHasNoBreak(DropCR(text[..n]));
        if n < |text| {
          ParsedHasNoBreaks(text[n + 1..]);
          assert Scan(text)[1..] == Scan(text[n + 1..]);
        } else {
          assert text[..n] == text;
          assert Scan(text) == [DropCR(text)];
          assert ParseLines(Scan(text)[1..]) == [];
        }
      }
    }
  }

  lemma PrintableHasNoBreak(e: Entry)
    requires Printable(e)
    ensures '\n' !in Line(e)
  {
    assert forall i :: 0 <= i < |e.digest| ==> e.digest[i] != '\n';
    LineHasBreak(e);
  }

  lemma {:induction false} PrintableListRoundTrips(es: seq<Entry>)
    requires forall e :: e in es ==> Printable(e)
    ensures Parse(Print(es)) == es
  {
    if |es| > 0 {
      assert es[0] in es;
      PrintableHasNoBreak(es[0]);
      PrintedLineIsScanned(es[0], es);
      PrintableEchoes(es[0]);
      PrintableListRoundTrips(es[1..]);
      Cut(es, 0);
    }
  }

  /** Line-free entries yield at most one parsed entry each, so equality is element-wise. */
  lemma {:induction false} EqualityForcesPrintable(es: seq<Entry>)
    requires forall e :: e in es ==> NoBreak(e)
    ensures |Parse(Print(es))| <= |es|
    ensures Parse(Print(es)) == es ==> forall e :: e in es ==> Printable(e)
  {
    if |es| > 0 {
      assert NoBreak(es[0]);
      LineHasBreak(es[0]);
      PrintedLineIsScanned(es[0], es);
      EqualityForcesPrintable(es[1..]);
      if |Line(es[0])| < MAX_TOKEN && Parse(Print(es)) == es {
        var rest := Parse(Print(es[1..]));
        assert |Echo(es[0])| == 1;
        Halves(Echo(es[0]), rest);
        assert Echo(es[0]) == [es[0]];
        EchoForcesPrintable(es[0]);
      }
    }
  }

  /** Printing a list of entries and parsing the text returns the same list, in order and
      with nothing added or lost, exactly when every entry is printable. */
  lemma ManifestRoundTrip(es: seq<Entry>)
    ensures Parse(Print(es)) == es <==> forall e :: e in es ==> Printable(e)
  {
    if forall e :: e in es ==> Printable(e) {
      PrintableListRoundTrips(es);
    } else if Parse(Print(es)) == es {
      ParsedHasNoBreaks(Print(es));
      EqualityForcesPrintable(es);
    }
  }
}
